/** Compaction: segments slide down one by one until a single hole is left at the top. */
module Compaction {
  import opened Sums
  import opened Holes
  import opened Memory

  const BLANK := ' '

  /** `memmove` followed by the `memset` that blanks the segment's old place. */
  function Slide(space: seq<char>, to: int, from: int, n: int): (r: seq<char>)
    requires 0 <= to <= from && 0 <= n && from + n <= |space|
    ensures |r| == |space|
  {
    seq(|space|, i requires 0 <= i < |space| =>
      if from <= i < from + n then BLANK
      else if to <= i < to + n then space[from + (i - to)]
      else space[i])
  }

  /** The segments past the lowest hole: those compaction still has to move. */
  ghost function Above(m: Mem): set<Segmento>
    requires |m.holes| > 0
  {
    set r | r in m.segs && m.segs[r].base > m.holes[FirstHole(m.holes)].pos
  }

  /** The segment the next step moves: the lowest one above the lowest hole. */
  ghost predicate IsNext(m: Mem, r: Segmento)
    requires |m.holes| > 0
  {
    r in Above(m) && forall s :: s in Above(m) ==> m.segs[r].base <= m.segs[s].base
  }

  /** `realloc_segment`'s hole list: the lowest hole is taken out and rehoused past the segment. */
  function Rehoused(h: seq<Hueco>, lim: int): seq<Hueco>
    requires |h| > 0
  {
    var f := FirstHole(h);
    Alojar(RemoveAt(h, f), h[f].pos + lim, h[f].size)
  }

  /** One turn of the loop: slide `r` onto the lowest hole and rehouse the hole after it. */
  function Step(m: Mem, r: Segmento): Mem
    requires |m.holes| > 0 && r in m.segs
    requires 0 <= m.holes[FirstHole(m.holes)].pos <= m.segs[r].base
    requires 0 <= m.segs[r].limite && m.segs[r].base + m.segs[r].limite <= |m.space|
  {
    var to, s := m.holes[FirstHole(m.holes)].pos, m.segs[r];
    m.(space := Slide(m.space, to, s.base, s.limite),
       segs := m.segs[r := s.(base := to)],
       holes := Rehoused(m.holes, s.limite))
  }

  // ----- one step -----

  lemma HoleInRange(m: Mem, i: nat)
    requires Partition(m) && i < |m.holes|
    ensures 0 <= m.holes[i].pos && m.holes[i].pos + m.holes[i].size <= m.total
  {
    assert m.holes[i].Has(m.holes[i].pos) && Free(m.holes, m.holes[i].pos);
    assert m.holes[i].Has(m.holes[i].pos + m.holes[i].size - 1) && Free(m.holes, m.holes[i].pos + m.holes[i].size - 1);
  }

  /** A segment never straddles a free byte. */
  lemma SegAvoidsHole(m: Mem, r: Segmento, i: nat)
    requires Partition(m) && r in m.segs && i < |m.holes|
    ensures m.segs[r].base + m.segs[r].limite <= m.holes[i].pos || m.holes[i].pos + m.holes[i].size <= m.segs[r].base
  {
    var s, h := m.segs[r], m.holes[i];
    var b := if s.base <= h.pos then h.pos else s.base;
    if s.Has(b) && h.Has(b) {
      assert Free(m.holes, b) && Used(m.segs, b);
      assert false;
    }
  }

  /** The segment moved by a step lies directly on top of the hole. */
  lemma NextIsAdjacent(m: Mem, r: Segmento)
    requires Partition(m) && |m.holes| > 0 && IsNext(m, r)
    ensures var h := m.holes[FirstHole(m.holes)]; m.segs[r].base == h.pos + h.size
  {
    var f := FirstHole(m.holes);
    var h, e := m.holes[f], m.holes[f].pos + m.holes[f].size;
    HoleInRange(m, f);
    SegAvoidsHole(m, r, f);
    EdgesAreTaken(m.holes, f);
    assert Used(m.segs, e);
    var q: Segmento :| q in m.segs && m.segs[q].Has(e);
    SegAvoidsHole(m, q, f);
    assert q in Above(m);
  }

  /** The free bytes after rehousing: the hole's old bytes are taken, its size reappears on top. */
  lemma RehousedBytes(h: seq<Hueco>, lim: int)
    requires Canonical(h) && |h| > 0 && lim > 0
    requires var e := h[FirstHole(h)].pos + h[FirstHole(h)].size; forall b :: e <= b < e + lim ==> !Free(h, b)
    ensures Canonical(Rehoused(h, lim)) && Total(Rehoused(h, lim)) == Total(h)
    ensures forall b :: Free(Rehoused(h, lim), b) <==>
      (Free(h, b) && !h[FirstHole(h)].Has(b)) || Hueco(h[FirstHole(h)].pos + lim, h[FirstHole(h)].size).Has(b)
  {
    hide Alojar, RemoveAt, Total, Canonical, Free, FirstHole;
    var f := FirstHole(h);
    var rest, span := RemoveAt(h, f), Hueco(h[f].pos + lim, h[f].size);
    HoleHasBytes(h, f);
    RemoveTakesSpan(h, f);
    AlojarFreesSpan(rest, span.pos, span.size);
  }

  lemma StepHoles(m: Mem, r: Segmento)
    requires Partition(m) && |m.holes| > 0 && IsNext(m, r)
    ensures 0 <= m.holes[FirstHole(m.holes)].pos <= m.segs[r].base
    ensures Canonical(Step(m, r).holes) && Total(Step(m, r).holes) == Total(m.holes)
    ensures var h := m.holes[FirstHole(m.holes)];
      forall b :: Free(Step(m, r).holes, b) <==>
        (Free(m.holes, b) && !h.Has(b)) || h.pos + m.segs[r].limite <= b < h.pos + m.segs[r].limite + h.size
  {
    NextIsAdjacent(m, r);
    HoleInRange(m, FirstHole(m.holes));
    forall b | m.segs[r].Has(b) ensures !Free(m.holes, b) { assert Used(m.segs, b); }
    RehousedBytes(m.holes, m.segs[r].limite);
  }

  lemma StepKeepsPartition(m: Mem, r: Segmento)
    requires Partition(m) && |m.holes| > 0 && IsNext(m, r)
    ensures 0 <= m.holes[FirstHole(m.holes)].pos <= m.segs[r].base
    ensures Partition(Step(m, r)) && Total(Step(m, r).holes) == Total(m.holes)
    ensures |Step(m, r).holes| > 0
  {
    hide Rehoused, Canonical, Slide, Free, Used, Total, FirstHole;
    var h, s := m.holes[FirstHole(m.holes)], m.segs[r];
    StepHoles(m, r);
    StepKeepsSegs(m, r);
    HoleHasBytes(m.holes, FirstHole(m.holes));
    var m' := Step(m, r);
    NonEmptyIfFree(m'.holes, h.pos + s.limite);
    assert Free(m'.holes, h.pos + s.limite);
    forall b ensures Free(m'.holes, b) <==> 0 <= b < m'.total && !Used(m'.segs, b) {
      StepByte(m, r, b);
    }
  }

  lemma StepByte(m: Mem, r: Segmento, b: int)
    requires Partition(m) && |m.holes| > 0 && IsNext(m, r)
    ensures 0 <= m.holes[FirstHole(m.holes)].pos <= m.segs[r].base
    ensures Free(Step(m, r).holes, b) <==> 0 <= b < m.total && !Used(Step(m, r).segs, b)
  {
    var f := FirstHole(m.holes);
    var h, s := m.holes[f], m.segs[r];
    StepHoles(m, r);
    NextIsAdjacent(m, r);
    HoleInRange(m, f);
    UsedAfterMove(m, r, h.pos, b);
    if s.Has(b) { assert Used(m.segs, b); }
    if h.Has(b) { assert Free(m.holes, b); }
  }

  lemma UsedAfterMove(m: Mem, r: Segmento, to: int, b: int)
    requires SegsOk(m.segs, m.total) && r in m.segs
    ensures Used(m.segs[r := m.segs[r].(base := to)], b) <==>
      (Used(m.segs, b) && !m.segs[r].Has(b)) || to <= b < to + m.segs[r].limite
  {
    var segs' := m.segs[r := m.segs[r].(base := to)];
    if Used(m.segs, b) && !m.segs[r].Has(b) {
      var q: Segmento :| q in m.segs && m.segs[q].Has(b);
      assert segs'[q].Has(b);
    }
    if to <= b < to + m.segs[r].limite { assert segs'[r].Has(b); }
    if Used(segs', b) {
      var q: Segmento :| q in segs' && segs'[q].Has(b);
      assert q != r ==> Disjoint(m.segs[q], m.segs[r]) && m.segs[q].Has(b);
    }
  }

  /** A segment other than the moved one is wholly below the hole or wholly above the moved one. */
  lemma OthersStayClear(m: Mem, r: Segmento, q: Segmento)
    requires Partition(m) && |m.holes| > 0 && IsNext(m, r) && q in m.segs && q != r
    ensures var h := m.holes[FirstHole(m.holes)];
      || (q !in Above(m) && m.segs[q].base + m.segs[q].limite <= h.pos)
      || (q in Above(m) && m.segs[r].base + m.segs[r].limite <= m.segs[q].base)
  {
    SegAvoidsHole(m, q, FirstHole(m.holes));
    assert Disjoint(m.segs[q], m.segs[r]);
  }

  lemma StepKeepsSegs(m: Mem, r: Segmento)
    requires Partition(m) && |m.holes| > 0 && IsNext(m, r)
    requires 0 <= m.holes[FirstHole(m.holes)].pos <= m.segs[r].base
    ensures SegsOk(Step(m, r).segs, m.total)
  {
    var m' := Step(m, r);
    NextIsAdjacent(m, r);
    forall q | q in m.segs && q != r ensures Disjoint(m'.segs[q], m'.segs[r]) {
      OthersStayClear(m, r, q);
    }
    forall q, u | q in m'.segs && u in m'.segs && q != u ensures Disjoint(m'.segs[q], m'.segs[u]) {
      if q != r && u != r { assert Disjoint(m.segs[q], m.segs[u]); }
    }
  }

  lemma LowBytesTaken(m: Mem, r: Segmento, b: int)
    requires Partition(m) && |m.holes| > 0 && IsNext(m, r)
    requires b < m.holes[FirstHole(m.holes)].pos + m.segs[r].limite
    ensures !Free(m.holes, b) || m.holes[FirstHole(m.holes)].Has(b)
  {
    NextIsAdjacent(m, r);
    var h := m.holes[FirstHole(m.holes)];
    assert m.segs[r].Has(b) ==> Used(m.segs, b);
    if b < h.pos { NothingBelowFirst(m.holes, b); }
  }

  /** The termination measure: a step takes exactly the moved segment out of `Above`. */
  lemma StepShrinksAbove(m: Mem, r: Segmento)
    requires Partition(m) && |m.holes| > 0 && IsNext(m, r)
    ensures 0 <= m.holes[FirstHole(m.holes)].pos <= m.segs[r].base
    ensures |Step(m, r).holes| > 0 && Above(Step(m, r)) == Above(m) - {r}
    ensures var m' := Step(m, r);
      m'.holes[FirstHole(m'.holes)].pos == m.holes[FirstHole(m.holes)].pos + m.segs[r].limite
  {
    StepKeepsPartition(m, r);
    NextIsAdjacent(m, r);
    var f := FirstHole(m.holes);
    var h, m', top := m.holes[f], Step(m, r), m.holes[f].pos + m.segs[r].limite;
    StepHoles(m, r);
    forall b | b < top ensures !Free(m'.holes, b) { LowBytesTaken(m, r, b); }
    FirstHoleIsLowestFree(m'.holes, top);
    forall q | q in m.segs && q != r ensures q in Above(m') <==> q in Above(m) {
      OthersStayClear(m, r, q);
    }
  }

  // ----- the whole loop -----

  ghost function Next(m: Mem): (r: Segmento)
    requires Partition(m) && |m.holes| > 0 && Above(m) != {}
    ensures IsNext(m, r)
  {
    NextExists(m);
    var r :| r in m.segs && IsNext(m, r);
    r
  }

  lemma NextExists(m: Mem)
    requires |m.holes| > 0 && Above(m) != {}
    ensures exists r :: r in m.segs && IsNext(m, r)
  {
    LowestExists(m, Above(m));
    var r :| r in Above(m) && forall q :: q in Above(m) ==> m.segs[r].base <= m.segs[q].base;
    assert IsNext(m, r);
  }

  lemma {:induction false} LowestExists(m: Mem, s: set<Segmento>)
    requires s != {} && forall r :: r in s ==> r in m.segs
    ensures exists r :: r in s && forall q :: q in s ==> m.segs[r].base <= m.segs[q].base
    decreases |s|
  {
    var c :| c in s;
    if s == {c} {
      assert c in s && forall q :: q in s ==> m.segs[c].base <= m.segs[q].base;
    } else {
      LowestExists(m, s - {c});
      var d :| d in s - {c} && forall q :: q in s - {c} ==> m.segs[d].base <= m.segs[q].base;
      var r := if m.segs[c].base <= m.segs[d].base then c else d;
      assert r in s && forall q :: q in s ==> m.segs[r].base <= m.segs[q].base;
    }
  }

  /** `compactar_segmentos` as a function of the state it starts from. */
  ghost function Compact(m: Mem): (m': Mem)
    requires Partition(m) && |m.holes| > 0
    ensures Partition(m') && |m'.holes| > 0 && Above(m') == {}
    decreases |Above(m)|
  {
    if Above(m) == {} then m
    else
      var r := Next(m);
      StepKeepsPartition(m, r);
      StepShrinksAbove(m, r);
      assert |Above(Step(m, r))| < |Above(m)|;
      Compact(Step(m, r))
  }

  /** The loop's next segment is forced, so any way of finding it follows `Compact`. */
  lemma CompactAdvances(m: Mem, r: Segmento)
    requires Partition(m) && |m.holes| > 0 && IsNext(m, r)
    ensures 0 <= m.holes[FirstHole(m.holes)].pos <= m.segs[r].base
    ensures Partition(Step(m, r)) && |Step(m, r).holes| > 0
    ensures |Above(Step(m, r))| < |Above(m)|
    ensures Compact(m) == Compact(Step(m, r))
  {
    StepKeepsPartition(m, r);
    StepShrinksAbove(m, r);
    var q := Next(m);
    assert q != r ==> Disjoint(m.segs[q], m.segs[r]);
  }

  // ----- what compaction guarantees -----

  /** Identity, size, tables and free total are kept; nothing moves up; segments that were not
      above the lowest hole stay where they are. */
  lemma {:induction false} CompactKeeps(m: Mem)
    requires Partition(m) && |m.holes| > 0
    ensures var m' := Compact(m);
      && m'.total == m.total && m'.seg0 == m.seg0 && m'.tables == m.tables
      && m'.segs.Keys == m.segs.Keys && Total(m'.holes) == Total(m.holes)
      && (forall q :: q in m.segs ==> m'.segs[q] == m.segs[q].(base := m'.segs[q].base))
      && (forall q :: q in m.segs ==> m'.segs[q].base <= m.segs[q].base)
      && (forall q :: q in m.segs && q !in Above(m) ==> m'.segs[q] == m.segs[q])
    decreases |Above(m)|
  {
    if Above(m) != {} {
      var r := Next(m);
      StepKeepsPartition(m, r);
      StepShrinksAbove(m, r);
      StepFrame(m, r);
      assert Compact(m) == Compact(Step(m, r)) && r in Above(m);
      hide Compact, Step, Partition, Above, FirstHole, Total;
      CompactKeeps(Step(m, r));
      MovedTwice(m.segs, Step(m, r).segs, Compact(m).segs, Above(m), r);
    }
    hide Compact, Partition, Above, Total;
    CompactKeepsBooks(m);
  }

  /** One segment moved down, then others: each keeps its identity and size, and none went up. */
  lemma MovedTwice(a: map<Segmento, Seg>, b: map<Segmento, Seg>, c: map<Segmento, Seg>, above: set<Segmento>, r: Segmento)
    requires r in a && r in above && r in b && b[r].base <= a[r].base && b == a[r := a[r].(base := b[r].base)] && b.Keys == c.Keys
    requires forall q :: q in b ==> c[q] == b[q].(base := c[q].base) && c[q].base <= b[q].base
    requires forall q :: q in b && q !in above - {r} ==> c[q] == b[q]
    ensures a.Keys == c.Keys
    ensures forall q :: q in a ==> c[q] == a[q].(base := c[q].base) && c[q].base <= a[q].base
    ensures forall q :: q in a && q !in above ==> c[q] == a[q]
  {
    forall q | q in a ensures c[q] == a[q].(base := c[q].base) && c[q].base <= a[q].base && (q !in above ==> c[q] == a[q]) {
      assert q in b;
    }
  }

  lemma {:induction false} CompactKeepsBooks(m: Mem)
    requires Partition(m) && |m.holes| > 0
    ensures var m' := Compact(m);
      && m'.total == m.total && m'.seg0 == m.seg0 && m'.tables == m.tables
      && m'.segs.Keys == m.segs.Keys && Total(m'.holes) == Total(m.holes)
    decreases |Above(m)|
  {
    if Above(m) != {} {
      var r := Next(m);
      StepKeepsPartition(m, r);
      StepShrinksAbove(m, r);
      StepFrame(m, r);
      assert Compact(m) == Compact(Step(m, r)) && r in Above(m);
      hide Compact, Step, Partition, Above, FirstHole, Total;
      CompactKeepsBooks(Step(m, r));
    }
  }

  lemma StepFrame(m: Mem, r: Segmento)
    requires |m.holes| > 0 && r in m.segs && 0 <= m.holes[FirstHole(m.holes)].pos <= m.segs[r].base
    requires 0 <= m.segs[r].limite && m.segs[r].base + m.segs[r].limite <= |m.space|
    ensures var m' := Step(m, r);
      && m'.total == m.total && m'.seg0 == m.seg0 && m'.tables == m.tables
      && m'.segs == m.segs[r := m.segs[r].(base := m.holes[FirstHole(m.holes)].pos)]
  {
    hide Slide, Rehoused;
  }

  /** Address order is kept. */
  lemma {:induction false} CompactKeepsOrder(m: Mem, q: Segmento, u: Segmento)
    requires Partition(m) && |m.holes| > 0 && q in m.segs && u in m.segs
    requires m.segs[q].base < m.segs[u].base
    ensures q in Compact(m).segs && u in Compact(m).segs
    ensures Compact(m).segs[q].base < Compact(m).segs[u].base
    decreases |Above(m)|
  {
    if Above(m) != {} {
      var r := Next(m);
      StepKeepsPartition(m, r);
      StepShrinksAbove(m, r);
      NextIsAdjacent(m, r);
      if q != r { OthersStayClear(m, r, q); }
      if u != r { OthersStayClear(m, r, u); }
      CompactKeepsOrder(Step(m, r), q, u);
    }
  }

  lemma TotalOfOne(x: Hueco)
    ensures Total([x]) == x.size
  {
    assert [x][..0] == [];
  }

  lemma OnlyHole(m: Mem, i: nat)
    requires Partition(m) && i < |m.holes|
    requires var h := m.holes[FirstHole(m.holes)]; h.pos + h.size == m.total
    ensures i == FirstHole(m.holes)
  {
    HoleInRange(m, i);
    assert i != FirstHole(m.holes) ==> Apart(m.holes[i], m.holes[FirstHole(m.holes)]);
  }

  /** With no segment above it, the lowest hole reaches the end of memory. */
  lemma LowestReachesEnd(c: Mem)
    requires Partition(c) && |c.holes| > 0 && Above(c) == {}
    ensures var h := c.holes[FirstHole(c.holes)]; h.pos + h.size == c.total
  {
    var f := FirstHole(c.holes);
    HoleInRange(c, f);
    EdgesAreTaken(c.holes, f);
    var e := c.holes[f].pos + c.holes[f].size;
    hide Canonical, SegsOk, Total, FirstHole;
    forall q | q in c.segs ensures !c.segs[q].Has(e) {
      SegAvoidsHole(c, q, f);
      assert q !in Above(c);
    }
    assert !Used(c.segs, e) && !Free(c.holes, e);
  }

  /** One hole is left; it reaches the end of memory and holds all the free bytes. */
  lemma CompactLeavesOneHole(m: Mem)
    requires Partition(m) && |m.holes| > 0
    ensures Compact(m).holes == [Hueco(m.total - Total(m.holes), Total(m.holes))]
  {
    CompactKeeps(m);
    var c := Compact(m);
    hide Compact, Partition, Total, FirstHole, Above;
    LowestReachesEnd(c);
    if |c.holes| > 1 { OnlyHole(c, if FirstHole(c.holes) == 0 then 1 else 0); }
    assert c.holes == [c.holes[0]];
    TotalOfOne(c.holes[0]);
  }

  /** The sizes of the segments that start below an address. */
  ghost function SizesBelow(segs: map<Segmento, Seg>, a: int): map<Segmento, int> {
    map r | r in segs && segs[r].base < a :: segs[r].limite
  }

  /** Segments that tile `[0, a)` without a gap have sizes that add up to `a`. */
  lemma {:induction false} TilingSum(segs: map<Segmento, Seg>, total: int, a: int)
    requires SegsOk(segs, total) && 0 <= a
    requires forall b :: 0 <= b < a ==> Used(segs, b)
    requires forall r :: r in segs && segs[r].base < a ==> segs[r].base + segs[r].limite <= a
    ensures Sum(SizesBelow(segs, a)) == a
    decreases a
  {
    if a == 0 {
      assert SizesBelow(segs, 0) == map[];
    } else {
      assert Used(segs, a - 1);
      var q: Segmento :| q in segs && segs[q].Has(a - 1);
      var low := segs[q].base;
      forall r | r in segs && segs[r].base < low ensures segs[r].base + segs[r].limite <= low {
        assert Disjoint(segs[r], segs[q]);
      }
      forall r | r in segs && segs[r].base < a && r != q ensures segs[r].base < low {
        assert Disjoint(segs[r], segs[q]);
      }
      TilingSum(segs, total, low);
      SumMinus(SizesBelow(segs, a), q);
      assert SizesBelow(segs, a) - {q} == SizesBelow(segs, low);
    }
  }

  lemma CompactedBase(m: Mem, q: Segmento)
    requires Partition(m) && |m.holes| > 0 && q in m.segs
    ensures q in Compact(m).segs
    ensures Compact(m).segs[q].base == Sum(SizesBelow(Compact(m).segs, Compact(m).segs[q].base))
  {
    CompactKeeps(m);
    CompactLeavesOneHole(m);
    var c := Compact(m);
    var a := c.segs[q].base;
    assert q !in Above(c);
    assert c.holes[0].pos >= a;
    forall b | 0 <= b < a ensures Used(c.segs, b) {
      assert !c.holes[0].Has(b);
      assert !Free(c.holes, b);
    }
    forall r | r in c.segs && c.segs[r].base < a ensures c.segs[r].base + c.segs[r].limite <= a {
      assert Disjoint(c.segs[r], c.segs[q]);
    }
    TilingSum(c.segs, c.total, a);
  }

  lemma OrderBothWays(m: Mem, q: Segmento, r: Segmento)
    requires Partition(m) && |m.holes| > 0 && q in m.segs && r in m.segs
    ensures q in Compact(m).segs && r in Compact(m).segs
    ensures Compact(m).segs[r].base < Compact(m).segs[q].base <==> m.segs[r].base < m.segs[q].base
  {
    CompactKeeps(m);
    hide Compact;
    if m.segs[r].base < m.segs[q].base { CompactKeepsOrder(m, r, q); }
    if m.segs[q].base < m.segs[r].base { CompactKeepsOrder(m, q, r); }
    assert q != r ==> Disjoint(m.segs[q], m.segs[r]);
  }

  /** Pack left: compaction puts each segment at the sum of the sizes of the segments that were below
      it. */
  lemma CompactPacksLeft(m: Mem, q: Segmento)
    requires Partition(m) && |m.holes| > 0 && q in m.segs
    ensures q in Compact(m).segs
    ensures Compact(m).segs[q].base == Sum(SizesBelow(m.segs, m.segs[q].base))
  {
    CompactKeeps(m);
    CompactedBase(m, q);
    forall r | r in m.segs
      ensures r in Compact(m).segs && Compact(m).segs[r].limite == m.segs[r].limite
      ensures Compact(m).segs[r].base < Compact(m).segs[q].base <==> m.segs[r].base < m.segs[q].base
    {
      OrderBothWays(m, q, r);
    }
    assert SizesBelow(Compact(m).segs, Compact(m).segs[q].base) == SizesBelow(m.segs, m.segs[q].base);
  }

  /** The byte a segment holds at offset `k` after sliding down by `gap`: bytes at or past the gap
      are lost to the blanking of the old place, unless the segment did not move. */
  function AfterSlide(was: char, gap: int, k: int): char {
    if gap == 0 || k < gap then was else BLANK
  }

  /** In `m'` the segment holds at offset `k` what sliding it there from `m` leaves. */
  ghost predicate Carried(m: Mem, m': Mem, q: Segmento, k: int) {
    && q in m.segs && q in m'.segs
    && 0 <= m.segs[q].base + k < |m.space| && 0 <= m'.segs[q].base + k < |m'.space|
    && m'.space[m'.segs[q].base + k] ==
       AfterSlide(m.space[m.segs[q].base + k], m.segs[q].base - m'.segs[q].base, k)
  }

  lemma StepBytes(m: Mem, r: Segmento, q: Segmento, k: int)
    requires Partition(m) && |m.holes| > 0 && IsNext(m, r) && q in m.segs && 0 <= k < m.segs[q].limite
    ensures 0 <= m.holes[FirstHole(m.holes)].pos <= m.segs[r].base
    ensures Carried(m, Step(m, r), q, k)
  {
    hide Rehoused;
    StepKeepsPartition(m, r);
    NextIsAdjacent(m, r);
    if q != r { OthersStayClear(m, r, q); }
  }

  /** Contents after compaction, byte by byte, for every live segment: each one is moved at most
      once and no later turn touches it again. */
  lemma {:induction false} CompactBytes(m: Mem, q: Segmento, k: int)
    requires Partition(m) && |m.holes| > 0 && q in m.segs && 0 <= k < m.segs[q].limite
    ensures Carried(m, Compact(m), q, k)
    decreases |Above(m)|
  {
    if Above(m) != {} {
      var r := Next(m);
      StepKeepsPartition(m, r);
      StepShrinksAbove(m, r);
      CompactAdvances(m, r);
      hide Compact, Step, Slide, Rehoused, Partition;
      var m1 := Step(m, r);
      StepSegs(m, r, q);
      StepBytes(m, r, q, k);
      CompactBytes(m1, q, k);
      CompactKeeps(m1);
      CarriedTwice(m, m1, Compact(m1), q, k);
    }
  }

  lemma CarriedTwice(m: Mem, m1: Mem, m2: Mem, q: Segmento, k: int)
    requires Carried(m, m1, q, k) && Carried(m1, m2, q, k)
    requires m1.segs[q] == m.segs[q] || m2.segs[q] == m1.segs[q]
    ensures Carried(m, m2, q, k)
  {
  }

  lemma StepSegs(m: Mem, r: Segmento, q: Segmento)
    requires Partition(m) && |m.holes| > 0 && IsNext(m, r) && q in m.segs
    requires 0 <= m.holes[FirstHole(m.holes)].pos <= m.segs[r].base
    ensures q in Step(m, r).segs && Step(m, r).segs[q].limite == m.segs[q].limite
    ensures q == r || Step(m, r).segs[q] == m.segs[q]
  {
    hide Slide, Rehoused;
  }

  /** The bytes of a live segment. */
  function Bytes(m: Mem, q: Segmento): seq<char> {
    if q in m.segs && 0 <= m.segs[q].base <= m.segs[q].base + m.segs[q].limite <= |m.space|
    then m.space[m.segs[q].base..m.segs[q].base + m.segs[q].limite]
    else []
  }

  /** The free bytes below a segment: its start less the sizes of the segments below it. */
  ghost function Gap(m: Mem, q: Segmento): int
    requires q in m.segs
  {
    m.segs[q].base - Sum(SizesBelow(m.segs, m.segs[q].base))
  }

  /** Compaction slides a segment by exactly the free bytes below it. */
  lemma SlidesByGap(m: Mem, q: Segmento)
    requires Partition(m) && |m.holes| > 0 && q in m.segs
    ensures Gap(m, q) >= 0
    ensures q in Compact(m).segs && Compact(m).segs[q] == m.segs[q].(base := m.segs[q].base - Gap(m, q))
  {
    CompactKeeps(m);
    CompactPacksLeft(m, q);
  }

  lemma ByteOf(m: Mem, q: Segmento)
    requires Partition(m) && q in m.segs
    ensures |Bytes(m, q)| == m.segs[q].limite
    ensures forall k :: 0 <= k < |Bytes(m, q)| ==> Bytes(m, q)[k] == m.space[m.segs[q].base + k]
  {
  }

  lemma BytesAfterCompact(m: Mem, q: Segmento)
    requires Partition(m) && |m.holes| > 0 && q in m.segs
    ensures |Bytes(m, q)| == |Bytes(Compact(m), q)| == m.segs[q].limite
    ensures forall k :: 0 <= k < |Bytes(m, q)| ==>
      Bytes(Compact(m), q)[k] == AfterSlide(Bytes(m, q)[k], Gap(m, q), k)
  {
    hide Compact, Partition, Above, Bytes, AfterSlide, Gap;
    CompactKeeps(m);
    SlidesByGap(m, q);
    ByteOf(m, q);
    ByteOf(Compact(m), q);
    forall k | 0 <= k < |Bytes(m, q)|
      ensures Bytes(Compact(m), q)[k] == AfterSlide(Bytes(m, q)[k], Gap(m, q), k)
    {
      CompactBytes(m, q, k);
    }
  }

  /** A segment keeps every byte exactly when no byte below it is free, or every byte of its own past
      that many is blank already, as when at least its size is free. */
  lemma IntactIff(m: Mem, q: Segmento)
    requires Partition(m) && |m.holes| > 0 && q in m.segs
    ensures Bytes(Compact(m), q) == Bytes(m, q) <==>
        Gap(m, q) == 0 || forall k :: 0 <= k < |Bytes(m, q)| && Gap(m, q) <= k ==> Bytes(m, q)[k] == BLANK
  {
    hide Bytes, Gap;
    SlidesByGap(m, q);
    BytesAfterCompact(m, q);
    BlanksOnly(Bytes(m, q), Bytes(Compact(m), q), Gap(m, q));
  }

  lemma BlanksOnly(before: seq<char>, after: seq<char>, gap: int)
    requires gap >= 0
    requires |before| == |after|
    requires forall k :: 0 <= k < |before| ==> after[k] == AfterSlide(before[k], gap, k)
    ensures after == before <==> gap == 0 || forall k :: gap <= k < |before| ==> before[k] == BLANK
  {
    if after == before && gap != 0 {
      forall k | gap <= k < |before| ensures before[k] == BLANK {
        assert after[k] == AfterSlide(before[k], gap, k);
      }
    }
  }
}
