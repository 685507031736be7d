/** What each request does to memory, said of the state before it: which hole a segment gets, which
    segment a deletion takes, what compaction leaves in every byte. */
module MemoryEffects {
  import opened Sums
  import opened Holes
  import opened Memory
  import opened Compaction
  import opened MemoryRuns

  // ----- creation -----

  /** Hole `i` is the one the configured algorithm takes: of those that fit, the smallest, the lowest or
      the largest one, and of equals the first in the list. */
  ghost predicate Chosen(policy: Policy, h: seq<Hueco>, size: int, i: int) {
    && 0 <= i < |h| && h[i].size >= size
    && forall j :: 0 <= j < |h| && h[j].size >= size ==>
         match policy
         case Best => h[i].size < h[j].size || (h[i].size == h[j].size && i <= j)
         case First => h[i].pos <= h[j].pos
         case Worst => h[i].size > h[j].size || (h[i].size == h[j].size && i <= j)
  }

  /** The first request of a process only makes its table, and segment 0 is all that is in it. */
  lemma NewEffect(m: Mem, pid: Pid)
    requires Inv(m) && pid !in m.tables
    ensures var m' := NewProcess(m, pid);
      && m' == m.(tables := m'.tables) && m'.tables.Keys == m.tables.Keys + {pid}
      && (forall p :: p in m.tables ==> m'.tables[p] == m.tables[p])
      && |m'.tables[pid]| == 1 && m'.tables[pid][0] == m.seg0
  {
  }

  /** Hole `i` gives its first bytes, where it stands, or leaves the list when it has no others. */
  ghost predicate Shortened(h: seq<Hueco>, i: int, size: int, h': seq<Hueco>) {
    && 0 <= i < |h|
    && (h[i].size == size ==> h' == h[..i] + h[i + 1..])
    && (h[i].size > size ==> h' == h[i := Hueco(h[i].pos + size, h[i].size - size)])
  }

  /** The earliest of the holes the comparison prefers. */
  lemma {:induction false} PickIsFirst(p: Policy, h: seq<Hueco>, size: int, j: nat)
    requires Pick(p, h, size).Some? && j < Pick(p, h, size).value && Fits(h[j], size)
    ensures !Prefers(p, h[j], h[Pick(p, h, size).value])
  {
    var n := |h| - 1;
    var i := Pick(p, h[..n], size);
    assert h[..n][j] == h[j];
    if i == Pick(p, h, size) {
      PickIsFirst(p, h[..n], size, j);
      assert h[..n][i.value] == h[i.value];
    }
  }

  /** Answer 0: the new segment has the ID and the size asked for and the start of the hole the algorithm
      takes; it is the last entry of its table, its bytes are no longer free, and nothing else has changed.
      Any other answer changes nothing. */
  lemma CreateEffect(policy: Policy, m: Mem, pid: Pid, id: int, size: int, r: Segmento) returns (i: int)
    requires Partition(m) && pid in m.tables && size > 0 && r !in m.segs
    ensures var (m', answer) := Create(policy, m, pid, id, size, r);
      && (answer != 0 ==> m' == m)
      && (answer == 0 ==>
            && Chosen(policy, m.holes, size, i)
            && m' == m.(holes := m'.holes, segs := m.segs[r := Seg(id, m.holes[i].pos, size)],
                        tables := m.tables[pid := m.tables[pid] + [r]])
            && Total(m'.holes) == Total(m.holes) - size
            && Shortened(m.holes, i, size, m'.holes)
            && forall b :: Free(m'.holes, b) <==> Free(m.holes, b) && !m'.segs[r].Has(b))
  {
    hide Chosen, Shortened, Place, Pick, Partition, Canonical, Total, Free;
    i := 0;
    match Pick(policy, m.holes, size)
    case None =>
    case Some(k) =>
      i := k;
      var m' := Create(policy, m, pid, id, size, r).0;
      assert m'.segs[r] == Seg(id, m.holes[i].pos, size);
      PickIsChosen(policy, m.holes, size);
      HolesAfterCreate(m, i, size);
      PlaceIs(m.holes, i, size);
  }

  lemma HolesAfterCreate(m: Mem, i: nat, size: int)
    requires Partition(m) && i < |m.holes| && 0 < size <= m.holes[i].size
    ensures Total(Place(m.holes, i, size)) == Total(m.holes) - size
    ensures forall b :: Free(Place(m.holes, i, size), b) <==> Free(m.holes, b) && !(m.holes[i].pos <= b < m.holes[i].pos + size)
  {
    PlaceTakesSpan(m.holes, i, size);
  }

  lemma PickIsChosen(policy: Policy, h: seq<Hueco>, size: int)
    requires Pick(policy, h, size).Some?
    ensures Chosen(policy, h, size, Pick(policy, h, size).value)
  {
    var i := Pick(policy, h, size).value;
    forall j | 0 <= j < |h| && h[j].size >= size && j < i ensures !Prefers(policy, h[j], h[i]) {
      assert Fits(h[j], size);
      PickIsFirst(policy, h, size, j);
    }
    assert forall j :: 0 <= j < |h| && h[j].size >= size ==> Fits(h[j], size);
  }

  lemma PlaceIs(h: seq<Hueco>, i: nat, size: int)
    requires i < |h|
    ensures Shortened(h, i, size, Place(h, i, size))
  {
  }

  // ----- the order of the hole list, which settles ties -----

  predicate Touches(x: Hueco, base: int, lim: int) { x.pos + x.size == base || x.pos == base + lim }

  /** The holes that do not touch the span, in the order of the list. */
  function Rest(h: seq<Hueco>, base: int, lim: int): seq<Hueco> {
    if h == [] then [] else Rest(h[..|h| - 1], base, lim) + RestOfOne(h[|h| - 1], base, lim)
  }

  function RestOfOne(x: Hueco, base: int, lim: int): seq<Hueco> { if Touches(x, base, lim) then [] else [x] }

  lemma {:induction false} RestOfAll(h: seq<Hueco>, base: int, lim: int)
    requires forall k :: 0 <= k < |h| ==> !Touches(h[k], base, lim)
    ensures Rest(h, base, lim) == h
  {
    if h != [] {
      RestOfAll(h[..|h| - 1], base, lim);
      assert h == h[..|h| - 1] + [h[|h| - 1]];
    }
  }

  lemma {:induction false} RestSplit(a: seq<Hueco>, b: seq<Hueco>, base: int, lim: int)
    ensures Rest(a + b, base, lim) == Rest(a, base, lim) + Rest(b, base, lim)
  {
    if b == [] {
      assert a + b == a;
    } else {
      assert (a + b)[..|a + b| - 1] == a + b[..|b| - 1];
      hide RestOfOne;
      RestSplit(a, b[..|b| - 1], base, lim);
    }
  }

  /** One hole that touches the span between two parts of the list. */
  lemma RestAround(a: seq<Hueco>, x: Hueco, b: seq<Hueco>, base: int, lim: int)
    requires Touches(x, base, lim)
    ensures Rest(a + [x] + b, base, lim) == Rest(a, base, lim) + Rest(b, base, lim)
  {
    assert [x][..0] == [] && Rest([x], base, lim) == [];
    hide Rest;
    RestSplit(a + [x], b, base, lim);
    RestSplit(a, [x], base, lim);
  }

  /** Hole `x` is the span with the holes it touches, and stands at `i`: where the lower of them stood, or
      else the upper, or else at the end. */
  ghost predicate Joined(h: seq<Hueco>, base: int, lim: int, i: int, x: Hueco) {
    && (forall k :: 0 <= k < |h| && h[k].pos + h[k].size == base ==> i == k && x.pos == h[k].pos)
    && ((forall k :: 0 <= k < |h| ==> h[k].pos + h[k].size != base) ==>
          x.pos == base && forall k :: 0 <= k < |h| && h[k].pos == base + lim ==> i == k)
    && ((forall k :: 0 <= k < |h| ==> !Touches(h[k], base, lim)) ==> i == |h|)
    && (forall k :: 0 <= k < |h| && h[k].pos == base + lim ==> x.pos + x.size == h[k].pos + h[k].size)
    && ((forall k :: 0 <= k < |h| ==> h[k].pos != base + lim) ==> x.pos + x.size == base + lim)
  }

  /** `r` has `x` at `i`, and around it, in order, the holes of `h` that do not touch the span. */
  ghost predicate Around(h: seq<Hueco>, base: int, lim: int, r: seq<Hueco>, i: int, x: Hueco) {
    0 <= i <= |h| && r == Rest(h[..i], base, lim) + [x] + Rest(h[i..], base, lim)
  }

  lemma JoinedAs(h: seq<Hueco>, base: int, lim: int) returns (i: int, x: Hueco)
    requires Canonical(h) && Taken(h, Hueco(base, lim))
    ensures var (lower, upper) := (EndingAt(h, base), StartingAt(h, base + lim));
      && Joined(h, base, lim, i, x)
      && (lower.Some? && upper.Some? ==>
            i == lower.value && x == Hueco(h[lower.value].pos, h[lower.value].size + lim + h[upper.value].size))
      && (lower.Some? && upper.None? ==> i == lower.value && x == Hueco(h[lower.value].pos, h[lower.value].size + lim))
      && (lower.None? && upper.Some? ==> i == upper.value && x == Hueco(base, h[upper.value].size + lim))
      && (lower.None? && upper.None? ==> i == |h| && x == Hueco(base, lim))
  {
    OthersDoNotTouch(h, base, lim);
    hide Canonical, EndingAt, StartingAt, Taken;
    var (lower, upper) := (EndingAt(h, base), StartingAt(h, base + lim));
    i := if lower.Some? then lower.value else if upper.Some? then upper.value else |h|;
    var low := if lower.Some? then h[lower.value].pos else base;
    x := Hueco(low, (if upper.Some? then h[upper.value].pos + h[upper.value].size else base + lim) - low);
  }

  /** A span that becomes free takes the holes it touches into one; the other holes keep their order. */
  lemma AlojarPlaces(h: seq<Hueco>, base: int, lim: int) returns (i: int, x: Hueco)
    requires Canonical(h) && Taken(h, Hueco(base, lim))
    ensures Around(h, base, lim, Alojar(h, base, lim), i, x) && Joined(h, base, lim, i, x)
  {
    i, x := JoinedAs(h, base, lim);
    OthersDoNotTouch(h, base, lim);
    hide Canonical, EndingAt, StartingAt, Taken, Alojar, Joined, Around, Touches;
    match (EndingAt(h, base), StartingAt(h, base + lim))
    case (Some(a), Some(c)) => BothTouch(h, base, lim, a, c, x);
    case (Some(a), None) => OneTouches(h, base, lim, a, x);
    case (None, Some(c)) => OneTouches(h, base, lim, c, x);
    case (None, None) => NoneTouches(h, base, lim, x);
  }

  lemma BothTouch(h: seq<Hueco>, base: int, lim: int, a: nat, c: nat, x: Hueco)
    requires EndingAt(h, base) == Some(a) && StartingAt(h, base + lim) == Some(c) && a != c
    requires x == Hueco(h[a].pos, h[a].size + lim + h[c].size)
    requires Touches(h[a], base, lim) && Touches(h[c], base, lim)
    requires forall k :: 0 <= k < |h| && k != a && k != c ==> !Touches(h[k], base, lim)
    ensures Around(h, base, lim, Alojar(h, base, lim), a, x)
  {
    AlojarIs(h, base, lim);
    hide EndingAt, StartingAt, Alojar, Around, Touches, RemoveAt;
    MergedPlaces(h, base, lim, a, c, x);
  }

  lemma OneTouches(h: seq<Hueco>, base: int, lim: int, a: nat, x: Hueco)
    requires a < |h|
    requires || (EndingAt(h, base) == Some(a) && StartingAt(h, base + lim) == None && x == Hueco(h[a].pos, h[a].size + lim))
             || (EndingAt(h, base) == None && StartingAt(h, base + lim) == Some(a) && x == Hueco(base, h[a].size + lim))
    requires Touches(h[a], base, lim) && forall k :: 0 <= k < |h| && k != a ==> !Touches(h[k], base, lim)
    ensures Around(h, base, lim, Alojar(h, base, lim), a, x)
  {
    AlojarIs(h, base, lim);
    hide EndingAt, StartingAt, Alojar, Around, Touches, RemoveAt;
    OneReplaced(h, base, lim, a, x);
  }

  lemma NoneTouches(h: seq<Hueco>, base: int, lim: int, x: Hueco)
    requires EndingAt(h, base) == None && StartingAt(h, base + lim) == None && x == Hueco(base, lim)
    requires forall k :: 0 <= k < |h| ==> !Touches(h[k], base, lim)
    ensures Around(h, base, lim, Alojar(h, base, lim), |h|, x)
  {
    AlojarIs(h, base, lim);
    hide EndingAt, StartingAt, Alojar, Around, Touches, RemoveAt;
    NoneReplaced(h, base, lim, x);
  }

  lemma NoneReplaced(h: seq<Hueco>, base: int, lim: int, x: Hueco)
    requires forall k :: 0 <= k < |h| ==> !Touches(h[k], base, lim)
    ensures Around(h, base, lim, h + [x], |h|, x)
  {
    assert h[..|h|] == h && h[|h|..] == [];
    RestOfAll(h, base, lim);
    RestOfAll([], base, lim);
  }

  lemma AlojarIs(h: seq<Hueco>, base: int, lim: int)
    ensures var (lower, upper, r) := (EndingAt(h, base), StartingAt(h, base + lim), Alojar(h, base, lim));
      && (lower.Some? && upper.Some? ==>
            r == RemoveAt(h[lower.value := Hueco(h[lower.value].pos, h[lower.value].size + lim + h[upper.value].size)], upper.value))
      && (lower.Some? && upper.None? ==> r == h[lower.value := Hueco(h[lower.value].pos, h[lower.value].size + lim)])
      && (lower.None? && upper.Some? ==> r == h[upper.value := Hueco(base, h[upper.value].size + lim)])
      && (lower.None? && upper.None? ==> r == h + [Hueco(base, lim)])
  {
    hide EndingAt, StartingAt, RemoveAt;
  }

  /** At most one hole ends where the span starts, at most one starts where it ends, and no hole does both. */
  lemma OthersDoNotTouch(h: seq<Hueco>, base: int, lim: int)
    requires Canonical(h) && Taken(h, Hueco(base, lim))
    ensures var (lower, upper) := (EndingAt(h, base), StartingAt(h, base + lim));
      && (lower.Some? ==> Touches(h[lower.value], base, lim) && forall k :: 0 <= k < |h| && k != lower.value ==> h[k].pos + h[k].size != base)
      && (upper.Some? ==> Touches(h[upper.value], base, lim) && forall k :: 0 <= k < |h| && k != upper.value ==> h[k].pos != base + lim)
      && (lower.Some? && upper.Some? ==> lower.value != upper.value)
      && (forall k :: 0 <= k < |h| && (lower.Some? ==> k != lower.value) && (upper.Some? ==> k != upper.value) ==> !Touches(h[k], base, lim))
  {
    var (lower, upper) := (EndingAt(h, base), StartingAt(h, base + lim));
    hide EndingAt, StartingAt;
    if lower.Some? {
      forall k | 0 <= k < |h| && k != lower.value ensures h[k].pos + h[k].size != base { assert Apart(h[k], h[lower.value]); }
    }
    if upper.Some? {
      forall k | 0 <= k < |h| && k != upper.value ensures h[k].pos != base + lim { assert Apart(h[k], h[upper.value]); }
    }
  }

  lemma OneReplaced(h: seq<Hueco>, base: int, lim: int, a: nat, x: Hueco)
    requires a < |h| && Touches(h[a], base, lim) && forall k :: 0 <= k < |h| && k != a ==> !Touches(h[k], base, lim)
    ensures Around(h, base, lim, h[a := x], a, x)
  {
    hide Rest, Touches;
    RestOfAll(h[..a], base, lim);
    RestOfAll(h[a + 1..], base, lim);
    RestOfAll([], base, lim);
    RestAround([], h[a], h[a + 1..], base, lim);
    assert h[a..] == [] + [h[a]] + h[a + 1..];
    assert h[a := x] == h[..a] + [x] + h[a + 1..];
  }

  lemma MergedPlaces(h: seq<Hueco>, base: int, lim: int, a: nat, c: nat, x: Hueco)
    requires a < |h| && c < |h| && a != c && Touches(h[a], base, lim) && Touches(h[c], base, lim)
    requires forall k :: 0 <= k < |h| && k != a && k != c ==> !Touches(h[k], base, lim)
    ensures Around(h, base, lim, RemoveAt(h[a := x], c), a, x)
  {
    hide Rest, Touches;
    RestOfAll([], base, lim);
    RestAround([], h[a], h[a + 1..], base, lim);
    assert h[a..] == [] + [h[a]] + h[a + 1..];
    if c < a {
      RestAround(h[..c], h[c], h[c + 1..a], base, lim);
      assert h[..a] == h[..c] + [h[c]] + h[c + 1..a];
      RestOfAll(h[..c], base, lim);
      RestOfAll(h[c + 1..a], base, lim);
      RestOfAll(h[a + 1..], base, lim);
      assert RemoveAt(h[a := x], c) == h[..c] + h[c + 1..a] + [x] + h[a + 1..];
    } else {
      RestAround(h[a + 1..c], h[c], h[c + 1..], base, lim);
      assert h[a + 1..] == h[a + 1..c] + [h[c]] + h[c + 1..];
      RestOfAll(h[..a], base, lim);
      RestOfAll(h[a + 1..c], base, lim);
      RestOfAll(h[c + 1..], base, lim);
      assert RemoveAt(h[a := x], c) == h[..a] + [x] + (h[a + 1..c] + h[c + 1..]);
    }
  }

  // ----- deletion and exit -----

  /** The record is live and carries the ID. */
  predicate Carries(m: Mem, r: Segmento, id: int) { r in m.segs && m.segs[r].id == id }

  /** The first entry with the ID asked for leaves the table, and its record is no longer live; exactly its
      bytes become free, and nothing else has changed. Without a table nothing changes at all. */
  lemma DeleteEffect(m: Mem, pid: Pid, id: int, i: int)
    requires Inv(m) && (pid in m.tables ==> 0 < i < |m.tables[pid]| && Carries(m, m.tables[pid][i], id))
    requires pid in m.tables ==> forall j :: 0 <= j < i ==> !Carries(m, m.tables[pid][j], id)
    ensures var m' := Delete(m, pid, id);
      && (pid !in m.tables ==> m' == m)
      && (pid in m.tables ==>
            var t := m.tables[pid];
            && m' == m.(holes := m'.holes, segs := m.segs - {t[i]}, tables := m.tables[pid := t[..i] + t[i + 1..]])
            && Total(m'.holes) == Total(m.holes) + m.segs[t[i]].limite
            && forall b :: Free(m'.holes, b) <==> Free(m.holes, b) || m.segs[t[i]].Has(b))
  {
    if pid in m.tables {
      var t := m.tables[pid];
      assert EntryOf(m, t, id) == Some(i) by { OnlyFirst(m, t, id, i); }
      var m1 := m.(tables := m.tables[pid := RemoveAt(t, i)]);
      FreeSegKeepsPartition(m1, t[i]);
      FreeSegTotal(m1, t[i]);
    }
  }

  lemma OnlyFirst(m: Mem, t: seq<Segmento>, id: int, i: int)
    requires 0 <= i < |t| && Carries(m, t[i], id) && forall j :: 0 <= j < i ==> !Carries(m, t[j], id)
    ensures EntryOf(m, t, id) == Some(i)
  {
    var e := EntryOf(m, t, id);
    assert e.Some? ==> Carries(m, t[e.value], id);
  }

  /** The table of the process is gone, with it every record it lists but the shared one; exactly their
      bytes become free, and nothing else has changed. */
  lemma ExitEffect(m: Mem, pid: Pid)
    requires Inv(m) && pid in m.tables
    ensures var m', own := Exit(m, pid), Elems(m.tables[pid][1..]);
      && m' == m.(holes := m'.holes, segs := m.segs - own, tables := m.tables - {pid})
      && forall b :: Free(m'.holes, b) <==> Free(m.holes, b) || exists r :: r in own && r in m.segs && m.segs[r].Has(b)
  {
    ExitReleases(m, pid);
    var m0, rs := m.(tables := m.tables - {pid}), m.tables[pid][1..];
    FreeAllRemoves(m0, rs);
    FreeAllKeepsPartition(m0, rs);
    hide Exit, FreeAll, TablesOk, Canonical, SegsOk;
    var m' := Exit(m, pid);
    forall b ensures Free(m'.holes, b) <==> Free(m.holes, b) || exists r :: r in Elems(rs) && r in m.segs && m.segs[r].Has(b) {
      assert 0 <= b < m.total && !Used(m.segs, b) <==> Free(m.holes, b);
      FreedByExit(m, m', Elems(rs), b);
    }
  }

  lemma FreedByExit(m: Mem, m': Mem, own: set<Segmento>, b: int)
    requires Partition(m) && Partition(m') && m'.total == m.total && m'.segs == m.segs - own
    ensures Free(m'.holes, b) <==> Free(m.holes, b) || exists r :: r in own && r in m.segs && m.segs[r].Has(b)
  {
    hide Canonical, Free;
    forall q | q in m'.segs && m'.segs[q].Has(b) ensures Used(m.segs, b) { assert m.segs[q].Has(b); }
    forall q | q in m.segs && m.segs[q].Has(b) ensures q in own || Used(m'.segs, b) {
      if q !in own { assert m'.segs[q].Has(b); }
    }
    forall r | r in own && r in m.segs && m.segs[r].Has(b) ensures Used(m.segs, b) && !Used(m'.segs, b) {
      forall q | q in m'.segs ensures !m'.segs[q].Has(b) { assert Disjoint(m.segs[q], m.segs[r]); }
    }
  }

  // ----- writing -----

  /** The bytes written stand where they were sent, every other byte is what it was, and nothing but the
      bytes has changed. */
  lemma WriteEffect(m: Mem, addr: int, value: seq<char>)
    requires 0 <= addr <= addr + |value| <= |m.space|
    ensures var m' := Write(m, addr, value);
      && m' == m.(space := m'.space) && |m'.space| == |m.space|
      && forall b :: 0 <= b < |m.space| ==> m'.space[b] == if addr <= b < addr + |value| then value[b - addr] else m.space[b]
  {
  }

  // ----- compaction, byte by byte -----

  /** Compaction puts a byte of segment `q` at `b`: the one `Gap` further up. */
  ghost predicate Lands(m: Mem, q: Segmento, b: int) {
    q in m.segs && m.segs[q].Has(b + Gap(m, q))
  }

  /** Segment `q` slides, and `b` is in its old place. */
  ghost predicate Leaves(m: Mem, q: Segmento, b: int) {
    q in m.segs && Gap(m, q) > 0 && m.segs[q].Has(b)
  }

  lemma LandsMeans(m: Mem, q: Segmento, b: int)
    requires Partition(m) && |m.holes| > 0 && q in m.segs
    ensures q in Compact(m).segs && (Lands(m, q, b) <==> Compact(m).segs[q].Has(b))
    ensures Leaves(m, q, b) <==> Compact(m).segs[q].base != m.segs[q].base && m.segs[q].Has(b)
  {
    SlidesByGap(m, q);
  }

  /** The bytes outside every segment after one turn of the loop. */
  lemma StepSpace(m: Mem, r: Segmento, b: int)
    requires Partition(m) && |m.holes| > 0 && IsNext(m, r) && 0 <= b < |m.space|
    ensures 0 <= m.holes[FirstHole(m.holes)].pos <= m.segs[r].base
    ensures m.segs[r].Has(b) ==> Step(m, r).space[b] == BLANK
    ensures !m.segs[r].Has(b) && !Step(m, r).segs[r].Has(b) ==> Step(m, r).space[b] == m.space[b]
  {
    hide Rehoused;
    StepKeepsPartition(m, r);
  }

  /** From `a` to `c`, a byte that no segment has any more: blank when a segment that moved had it, and what
      it was when no segment that moved did. */
  ghost predicate Emptied(a: Mem, c: Mem, b: int) {
    && 0 <= b < |a.space| == |c.space| && a.segs.Keys == c.segs.Keys
    && ((exists q :: q in a.segs && c.segs[q].base != a.segs[q].base && a.segs[q].Has(b)) ==> c.space[b] == BLANK)
    && ((forall q :: q in a.segs && a.segs[q].Has(b) ==> c.segs[q].base == a.segs[q].base) ==> c.space[b] == a.space[b])
  }

  lemma EmptiedTwice(a: Mem, a1: Mem, c: Mem, r: Segmento, b: int)
    requires r in a.segs && r in a1.segs && a1.segs == a.segs[r := a.segs[r].(base := a1.segs[r].base)]
    requires a1.segs[r].base != a.segs[r].base && Emptied(a1, c, b) && c.segs[r] == a1.segs[r] && !c.segs[r].Has(b)
    requires |a.space| == |a1.space|
    requires if a.segs[r].Has(b) then a1.space[b] == BLANK else a1.space[b] == a.space[b]
    ensures Emptied(a, c, b)
  {
    forall q | q in a.segs && q != r ensures a1.segs[q] == a.segs[q] {}
    if q: Segmento :| q in a.segs && c.segs[q].base != a.segs[q].base && a.segs[q].Has(b) {
      if q != r { assert a1.segs[q].Has(b); }
    }
  }

  lemma {:induction false} UnusedBytes(m: Mem, b: int)
    requires Partition(m) && |m.holes| > 0 && 0 <= b < |m.space| && !Used(Compact(m).segs, b)
    ensures Emptied(m, Compact(m), b)
    decreases |Above(m)|
  {
    if Above(m) != {} {
      var r := Next(m);
      var m1 := StepMoves(m, r, b);
      hide Compact, Step, Partition, FirstHole, Emptied, Above, IsNext;
      UnusedBytes(m1, b);
      CompactKeeps(m1);
      assert !Compact(m).segs[r].Has(b);
      EmptiedTwice(m, m1, Compact(m), r, b);
    }
  }

  /** One turn of the loop: `r` goes down for good, and out of `b` if it had it. */
  lemma StepMoves(m: Mem, r: Segmento, b: int) returns (m1: Mem)
    requires Partition(m) && |m.holes| > 0 && IsNext(m, r) && 0 <= b < |m.space|
    ensures Partition(m1) && |m1.holes| > 0 && |m1.space| == |m.space| && Compact(m1) == Compact(m) && |Above(m1)| < |Above(m)|
    ensures r in m.segs && r in m1.segs && r !in Above(m1) && m1.segs == m.segs[r := m.segs[r].(base := m1.segs[r].base)]
    ensures m1.segs[r].base < m.segs[r].base
    ensures m.segs[r].Has(b) ==> m1.space[b] == BLANK
    ensures !m.segs[r].Has(b) && !m1.segs[r].Has(b) ==> m1.space[b] == m.space[b]
  {
    hide Compact;
    CompactAdvances(m, r);
    m1 := Step(m, r);
    NextIsAdjacent(m, r);
    HoleHasBytes(m.holes, FirstHole(m.holes));
    StepShrinksAbove(m, r);
    StepFrame(m, r);
    StepSpace(m, r, b);
  }

  lemma LandedByte(m: Mem, q: Segmento, b: int)
    requires Partition(m) && |m.holes| > 0 && 0 <= b < |m.space| && Lands(m, q, b)
    ensures |Compact(m).space| == |m.space| && 0 <= b + Gap(m, q) < |m.space|
    ensures Compact(m).space[b] == AfterSlide(m.space[b + Gap(m, q)], Gap(m, q), b + Gap(m, q) - m.segs[q].base)
  {
    hide Compact, Gap, AfterSlide, Above, SizesBelow, Carried;
    LandsInRange(m, q, b);
    hide Partition;
    CompactKeeps(m);
    SlidesByGap(m, q);
    SpaceStays(m);
    CompactBytes(m, q, b + Gap(m, q) - m.segs[q].base);
    CarriedTo(m, Compact(m), q, Gap(m, q), b);
  }

  lemma LandsInRange(m: Mem, q: Segmento, b: int)
    requires Partition(m) && Lands(m, q, b)
    ensures 0 <= b + Gap(m, q) < |m.space| && 0 <= b + Gap(m, q) - m.segs[q].base < m.segs[q].limite
  {
    hide Gap;
  }

  lemma CarriedTo(m: Mem, c: Mem, q: Segmento, gap: int, b: int)
    requires q in m.segs && q in c.segs && c.segs[q].base == m.segs[q].base - gap && Carried(m, c, q, b + gap - m.segs[q].base)
    ensures 0 <= b < |c.space| && 0 <= b + gap < |m.space|
    ensures c.space[b] == AfterSlide(m.space[b + gap], gap, b + gap - m.segs[q].base)
  {
  }

  lemma SpaceStays(m: Mem)
    requires Partition(m) && |m.holes| > 0
    ensures |Compact(m).space| == |m.space|
  {
    CompactKeeps(m);
    hide Compact;
  }

  lemma NobodyUses(m: Mem, c: Mem, b: int)
    requires c.segs.Keys == m.segs.Keys && forall q :: q in m.segs ==> !c.segs[q].Has(b)
    ensures !Used(c.segs, b)
  {
    assert forall q :: q in c.segs ==> q in m.segs;
  }

  lemma EmptiedMeans(m: Mem, c: Mem, b: int)
    requires Emptied(m, c, b)
    requires forall q :: q in m.segs ==> (Leaves(m, q, b) <==> c.segs[q].base != m.segs[q].base && m.segs[q].Has(b))
    ensures (exists q :: Leaves(m, q, b)) ==> c.space[b] == BLANK
    ensures (forall q :: !Leaves(m, q, b)) ==> c.space[b] == m.space[b]
  {
    if q: Segmento :| Leaves(m, q, b) {
      hide Gap;
      assert q in m.segs;
    }
    hide Leaves;
  }

  lemma UnusedMeans(m: Mem, b: int)
    requires Partition(m) && |m.holes| > 0 && 0 <= b < |m.space| && forall q :: !Lands(m, q, b)
    ensures |Compact(m).space| == |m.space| && !Used(Compact(m).segs, b)
    ensures (exists q :: Leaves(m, q, b)) ==> Compact(m).space[b] == BLANK
    ensures (forall q :: !Leaves(m, q, b)) ==> Compact(m).space[b] == m.space[b]
  {
    CompactKeeps(m);
    hide Compact, Partition, Lands, Leaves, Gap, Emptied;
    forall q | q in m.segs
      ensures q in Compact(m).segs && !Compact(m).segs[q].Has(b)
      ensures Leaves(m, q, b) <==> Compact(m).segs[q].base != m.segs[q].base && m.segs[q].Has(b)
    {
      LandsMeans(m, q, b);
    }
    NobodyUses(m, Compact(m), b);
    UnusedBytes(m, b);
    EmptiedMeans(m, Compact(m), b);
  }

  /** Every byte of memory after compaction, in terms of the state before: where a segment lands, the byte
      `Gap` further up, or a blank past the gap; where only a segment that slid has been, a blank; anywhere
      else, what was there. A byte is free afterwards exactly when nothing lands on it. */
  lemma CompactSpace(m: Mem, b: int)
    requires Partition(m) && |m.holes| > 0 && 0 <= b < |m.space|
    ensures var c := Compact(m);
      && |c.space| == |m.space| && (Free(c.holes, b) <==> forall q :: !Lands(m, q, b))
      && (forall q :: Lands(m, q, b) ==>
            c.space[b] == AfterSlide(m.space[b + Gap(m, q)], Gap(m, q), b + Gap(m, q) - m.segs[q].base))
      && ((forall q :: !Lands(m, q, b)) && (exists q :: Leaves(m, q, b)) ==> c.space[b] == BLANK)
      && ((forall q :: !Lands(m, q, b) && !Leaves(m, q, b)) ==> c.space[b] == m.space[b])
  {
    var c := Compact(m);
    CompactKeeps(m);
    assert |c.space| == |m.space| && (Free(c.holes, b) <==> !Used(c.segs, b));
    assert forall q :: Lands(m, q, b) ==> q in m.segs && m.segs[q].base <= b + Gap(m, q) < |m.space|;
    hide Compact, Partition, Lands, Gap, AfterSlide, Free, Leaves;
    if forall q :: !Lands(m, q, b) {
      UnusedMeans(m, b);
    } else {
      forall q | Lands(m, q, b)
        ensures c.space[b] == AfterSlide(m.space[b + Gap(m, q)], Gap(m, q), b + Gap(m, q) - m.segs[q].base)
        ensures Used(c.segs, b)
      {
        LandedByte(m, q, b);
        LandsMeans(m, q, b);
        assert c.segs[q].Has(b);
      }
    }
  }

  // ----- blank bytes over whole runs -----

  /** The request puts something else than a blank at `b`: a write names it, or compaction slides onto it a
      byte of a segment that was wholly above. */
  ghost predicate Spoils(m: Mem, op: Op, b: int)
    requires Partition(m) && Enabled(m, op)
  {
    match op
    case OpWrite(addr, value) => addr <= b < addr + |value| && value[b - addr] != BLANK
    case OpCompact => exists q :: q in m.segs && Stains(m, q, b)
    case _ => false
  }

  /** Compaction slides a byte of `q` that is no blank down to `b`, below the segment. */
  ghost predicate Stains(m: Mem, q: Segmento, b: int)
    requires Partition(m)
  {
    Lands(m, q, b) && b < m.segs[q].base && m.space[b + Gap(m, q)] != BLANK
  }

  /** Requests other than writes and compactions leave every byte alone. */
  lemma OthersLeaveBytes(m: Mem, op: Op)
    requires Inv(m) && Enabled(m, op) && !op.OpWrite? && !op.OpCompact?
    ensures Apply(m, op).space == m.space
  {
    match op
    case OpNew(pid) => NewEffect(m, pid);
    case OpCreate(policy, pid, id, size, r) => var i := CreateEffect(policy, m, pid, id, size, r);
    case OpDelete(pid, id) =>
      if pid in m.tables {
        var i := EntryOf(m, m.tables[pid], id).value;
        NobodyBefore(m, m.tables[pid], id, i);
        DeleteEffect(m, pid, id, i);
      }
    case OpExit(pid) => ExitEffect(m, pid);
  }

  lemma NobodyBefore(m: Mem, t: seq<Segmento>, id: int, i: int)
    requires EntryOf(m, t, id) == Some(i)
    ensures 0 <= i < |t| && Carries(m, t[i], id) && forall j :: 0 <= j < i ==> !Carries(m, t[j], id)
  {
  }

  /** A blank byte is blank after a request exactly when the request does not spoil it. */
  lemma BlankStaysIff(m: Mem, op: Op, b: int)
    requires Inv(m) && Enabled(m, op) && 0 <= b < |m.space| && m.space[b] == BLANK
    ensures |Apply(m, op).space| == |m.space| && (Apply(m, op).space[b] == BLANK <==> !Spoils(m, op, b))
  {
    match op
    case OpWrite(addr, value) => WriteEffect(m, addr, value);
    case OpCompact => BlankAfterCompact(m, b);
    case _ => OthersLeaveBytes(m, op);
  }

  lemma BlankAfterCompact(m: Mem, b: int)
    requires Inv(m) && |m.holes| > 0 && 0 <= b < |m.space| && m.space[b] == BLANK
    ensures |Compact(m).space| == |m.space| && (Compact(m).space[b] == BLANK <==> !Spoils(m, OpCompact, b))
  {
    SpaceStays(m);
    hide Compact, Partition, Stains;
    forall q | q in m.segs && Stains(m, q, b) ensures Compact(m).space[b] != BLANK { LandedBlank(m, q, b); }
    if q: Segmento :| q in m.segs && Lands(m, q, b) {
      LandedBlank(m, q, b);
    } else {
      assert forall q :: Lands(m, q, b) ==> q in m.segs;
      hide Lands, Leaves;
      UnusedMeans(m, b);
    }
  }

  lemma LandedBlank(m: Mem, q: Segmento, b: int)
    requires Partition(m) && |m.holes| > 0 && 0 <= b < |m.space| && m.space[b] == BLANK
    requires Lands(m, q, b) || Stains(m, q, b)
    ensures |Compact(m).space| == |m.space| && (Compact(m).space[b] != BLANK <==> Stains(m, q, b))
  {
    hide Compact, Partition, Lands, Gap;
    SpaceStays(m);
    LandedByte(m, q, b);
  }

  /** No request of the run spoils the byte. */
  ghost predicate Unspoilt(m: Mem, ops: seq<Op>, b: int)
    requires Inv(m) && Run(m, ops)
    decreases |ops|
  {
    ops == [] ||
    (ApplyKeepsInv(m, ops[0]); !Spoils(m, ops[0], b) && Unspoilt(Apply(m, ops[0]), ops[1..], b))
  }

  /** Over any run a blank byte stays blank as long as no write and no sliding segment puts something there,
      whoever gets it and gives it back meanwhile. */
  lemma {:induction false} RunStaysBlank(m: Mem, ops: seq<Op>, b: int)
    requires Inv(m) && Run(m, ops) && 0 <= b < |m.space| && m.space[b] == BLANK && Unspoilt(m, ops, b)
    ensures |Final(m, ops).space| == |m.space| && Final(m, ops).space[b] == BLANK
    decreases |ops|
  {
    hide Spoils, Inv, Enabled, Apply;
    if ops != [] {
      ApplyKeepsInv(m, ops[0]);
      BlankStaysIff(m, ops[0], b);
      RunStaysBlank(Apply(m, ops[0]), ops[1..], b);
    }
  }

  /** Not only writes put something in a free byte: here compaction does, with a byte written one further
      up. */
  lemma BlankByteIsOverrun(seg0: Segmento, rb: Segmento)
    requires seg0 != rb && Partition(LosingState(seg0, rb))
    ensures var m := LosingState(seg0, rb); Free(m.holes, 1) && m.space[1] == BLANK && |Compact(m).space| == 4 && Compact(m).space[1] == 'x'
  {
    var m := LosingState(seg0, rb);
    ByteIsLost(seg0, rb);
    assert m.holes[0].Has(1);
    assert Lands(m, rb, 1);
    CompactSpace(m, 1);
  }

  // ----- where bytes come from -----

  function Sent(op: Op): set<char> { if op.OpWrite? then set c | c in op.value else {} }

  function AllSent(ops: seq<Op>): set<char> { if ops == [] then {} else Sent(ops[0]) + AllSent(ops[1..]) }

  ghost predicate OnlyFrom(m: Mem, s: set<char>) { forall b :: 0 <= b < |m.space| ==> m.space[b] == BLANK || m.space[b] in s }

  lemma StepOnlyFrom(m: Mem, op: Op, s: set<char>)
    requires Inv(m) && Enabled(m, op) && OnlyFrom(m, s)
    ensures OnlyFrom(Apply(m, op), s + Sent(op))
  {
    match op
    case OpWrite(addr, value) => WriteEffect(m, addr, value);
    case OpCompact => CompactOnlyFrom(m, s);
    case _ => OthersLeaveBytes(m, op);
  }

  lemma CompactOnlyFrom(m: Mem, s: set<char>)
    requires Inv(m) && |m.holes| > 0 && OnlyFrom(m, s)
    ensures OnlyFrom(Compact(m), s)
  {
    SpaceStays(m);
    forall b | 0 <= b < |m.space| ensures Compact(m).space[b] == BLANK || Compact(m).space[b] in s {
      CompactSpace(m, b);
      hide Compact, Partition, Lands, Leaves, Gap;
      forall q | Lands(m, q, b) ensures Compact(m).space[b] == BLANK || Compact(m).space[b] in s {
        LandsInRange(m, q, b);
      }
    }
  }

  lemma {:induction false} RunOnlyFrom(m: Mem, ops: seq<Op>, s: set<char>)
    requires Inv(m) && Run(m, ops) && OnlyFrom(m, s)
    ensures OnlyFrom(Final(m, ops), s + AllSent(ops))
    decreases |ops|
  {
    hide Inv, Enabled, Apply;
    if ops == [] {
      assert s + AllSent(ops) == s;
    } else {
      ApplyKeepsInv(m, ops[0]);
      StepOnlyFrom(m, ops[0], s);
      RunOnlyFrom(Apply(m, ops[0]), ops[1..], s + Sent(ops[0]));
      assert s + AllSent(ops) == s + Sent(ops[0]) + AllSent(ops[1..]);
    }
  }

  /** From start-up, after any run: memory holds blanks and characters some write has sent, and a byte that no
      request spoilt is blank. */
  lemma EveryByteIsBlankOrSent(total: int, size0: int, seg0: Segmento, ops: seq<Op>, b: int)
    requires 0 < size0 <= total && Run(Start(total, size0, seg0), ops) && 0 <= b < total
    ensures Inv(Start(total, size0, seg0))
    ensures var m := Final(Start(total, size0, seg0), ops);
      && |m.space| == total && (m.space[b] == BLANK || m.space[b] in AllSent(ops))
      && (Unspoilt(Start(total, size0, seg0), ops, b) ==> m.space[b] == BLANK)
  {
    StartIsOk(total, size0, seg0);
    var m := Start(total, size0, seg0);
    assert OnlyFrom(m, {}) && |m.space| == total && m.space[b] == BLANK;
    hide Start, Run, Final, Unspoilt, Inv;
    RunOnlyFrom(m, ops, {});
    assert {} + AllSent(ops) == AllSent(ops);
    RunKeepsSize(m, ops);
    if Unspoilt(m, ops, b) { RunStaysBlank(m, ops, b); }
  }

  lemma {:induction false} RunKeepsSize(m: Mem, ops: seq<Op>)
    requires Inv(m) && Run(m, ops)
    ensures |Final(m, ops).space| == |m.space|
    decreases |ops|
  {
    hide Inv, Enabled, Apply;
    if ops != [] {
      ApplyKeepsInv(m, ops[0]);
      ApplyKeepsSize(m, ops[0]);
      RunKeepsSize(Apply(m, ops[0]), ops[1..]);
    }
  }

  lemma ApplyKeepsSize(m: Mem, op: Op)
    requires Inv(m) && Enabled(m, op)
    ensures |Apply(m, op).space| == |m.space|
  {
    match op
    case OpWrite(addr, value) => WriteEffect(m, addr, value);
    case OpCompact => SpaceStays(m);
    case _ => OthersLeaveBytes(m, op);
  }
}
