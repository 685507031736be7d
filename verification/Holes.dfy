/** The free-hole list of the memory module. */
module Holes {
  import opened Sums

  datatype Hueco = Hueco(pos: int, size: int) {
    predicate Has(b: int) { pos <= b < pos + size }
  }

  datatype Policy = Best | First | Worst

  predicate Apart(a: Hueco, b: Hueco) {
    a.pos + a.size < b.pos || b.pos + b.size < a.pos
  }

  /** No hole is empty, no two holes overlap and no two holes touch. */
  ghost predicate Canonical(h: seq<Hueco>) {
    && (forall i :: 0 <= i < |h| ==> h[i].size > 0)
    && (forall i, j {:trigger Apart(h[i], h[j])} ::
          0 <= i < |h| && 0 <= j < |h| && i != j ==> Apart(h[i], h[j]))
  }

  ghost predicate Free(h: seq<Hueco>, b: int) {
    exists i :: 0 <= i < |h| && h[i].Has(b)
  }

  /** `list_fold` with the size accumulator. */
  function Total(h: seq<Hueco>): int {
    if h == [] then 0 else Total(h[..|h| - 1]) + h[|h| - 1].size
  }

  /** `hueco_adyacente_inferior`: the first hole that ends at an address. */
  function EndingAt(h: seq<Hueco>, base: int): (r: Option<nat>)
    ensures r.Some? ==> r.value < |h| && h[r.value].pos + h[r.value].size == base
    ensures r.None? ==> forall i :: 0 <= i < |h| ==> h[i].pos + h[i].size != base
  {
    Find(h, (a: Hueco) => a.pos + a.size == base)
  }

  /** `hueco_adyacente_superior`: the first hole that starts at an address. */
  function StartingAt(h: seq<Hueco>, fin: int): (r: Option<nat>)
    ensures r.Some? ==> r.value < |h| && h[r.value].pos == fin
    ensures r.None? ==> forall i :: 0 <= i < |h| ==> h[i].pos != fin
  {
    Find(h, (a: Hueco) => fin == a.pos)
  }

  /** The lower hole takes the span and the upper hole, which leaves the list. */
  function Merged(h: seq<Hueco>, i: nat, j: nat, lim: int): seq<Hueco>
    requires i < |h| && j < |h|
  {
    RemoveAt(h[i := Hueco(h[i].pos, h[i].size + lim + h[j].size)], j)
  }

  /** The hole list after the span `[base, base + lim)` becomes free: merged with the hole that
      ends where it starts, with the hole that starts where it ends, with both, or added. */
  function Alojar(h: seq<Hueco>, base: int, lim: int): seq<Hueco> {
    var lower, upper := EndingAt(h, base), StartingAt(h, base + lim);
    match (lower, upper)
    case (Some(i), Some(j)) => Merged(h, i, j, lim)
    case (Some(i), None) => h[i := Hueco(h[i].pos, h[i].size + lim)]
    case (None, Some(j)) => h[j := Hueco(base, h[j].size + lim)]
    case (None, None) => h + [Hueco(base, lim)]
  }

  lemma SpanApart(a: Hueco, b: Hueco)
    requires a.size > 0 && b.size > 0
    requires forall x :: a.Has(x) ==> !b.Has(x)
    requires a.pos + a.size != b.pos && b.pos + b.size != a.pos
    ensures Apart(a, b)
  {
    assert a.Has(a.pos) && b.Has(b.pos);
    assert a.Has(a.pos) ==> !b.Has(a.pos);
    assert a.Has(b.pos) ==> !b.Has(b.pos);
  }

  lemma {:induction false} TotalUpdate(h: seq<Hueco>, i: nat, x: Hueco)
    requires i < |h|
    ensures Total(h[i := x]) == Total(h) - h[i].size + x.size
  {
    var n := |h| - 1;
    if i < n {
      assert h[i := x][..n] == h[..n][i := x];
      TotalUpdate(h[..n], i, x);
    } else {
      assert h[i := x][..n] == h[..n];
    }
  }

  lemma {:induction false} TotalRemove(h: seq<Hueco>, i: nat)
    requires i < |h|
    ensures Total(RemoveAt(h, i)) == Total(h) - h[i].size
  {
    var n := |h| - 1;
    if i < n {
      TotalRemove(h[..n], i);
      assert RemoveAt(h, i)[..n - 1] == RemoveAt(h[..n], i);
      assert RemoveAt(h, i)[n - 1] == h[n];
    } else {
      assert RemoveAt(h, i) == h[..n];
    }
  }

  /** The span's condition for being freed: it has bytes and none of them is free yet. */
  ghost predicate Taken(h: seq<Hueco>, span: Hueco) {
    span.size > 0 && forall b :: span.Has(b) ==> !Free(h, b)
  }

  /** `r` is `h` with the bytes of `span` freed. */
  ghost predicate Freed(h: seq<Hueco>, r: seq<Hueco>, span: Hueco) {
    && Canonical(r)
    && Total(r) == Total(h) + span.size
    && forall b :: Free(r, b) <==> Free(h, b) || span.Has(b)
  }

  lemma ApartFromSpan(h: seq<Hueco>, span: Hueco, k: nat)
    requires Canonical(h) && Taken(h, span) && k < |h|
    requires h[k].pos + h[k].size != span.pos && h[k].pos != span.pos + span.size
    ensures Apart(h[k], span)
  {
    forall x | h[k].Has(x) ensures !span.Has(x) { assert Free(h, x); }
    SpanApart(h[k], span);
  }

  lemma CanonicalUpdate(h: seq<Hueco>, i: nat, x: Hueco)
    requires Canonical(h) && i < |h| && x.size > 0
    requires forall k :: 0 <= k < |h| && k != i ==> Apart(h[k], x)
    ensures Canonical(h[i := x])
  {
  }

  lemma CanonicalRemove(h: seq<Hueco>, i: nat)
    requires i < |h|
    requires forall k :: 0 <= k < |h| && k != i ==> h[k].size > 0
    requires forall k, l :: 0 <= k < |h| && 0 <= l < |h| && k != l && k != i && l != i ==> Apart(h[k], h[l])
    ensures Canonical(RemoveAt(h, i))
  {
    var r := RemoveAt(h, i);
    forall k, l | 0 <= k < |r| && 0 <= l < |r| && k != l
      ensures Apart(r[k], r[l])
    {
      var k', l' := if k < i then k else k + 1, if l < i then l else l + 1;
      assert h[k'] == r[k] && h[l'] == r[l];
    }
  }

  lemma AppendKeeps(h: seq<Hueco>, span: Hueco)
    requires Canonical(h) && Taken(h, span)
    requires forall k :: 0 <= k < |h| ==> h[k].pos + h[k].size != span.pos && h[k].pos != span.pos + span.size
    ensures Freed(h, h + [span], span)
  {
    assert (h + [span])[..|h|] == h;
    BytesOfAppend(h, h + [span], span);
    forall k | 0 <= k < |h| ensures Apart(h[k], span) { ApartFromSpan(h, span, k); }
  }

  lemma GrowUpKeeps(h: seq<Hueco>, span: Hueco, i: nat)
    requires Canonical(h) && Taken(h, span)
    requires i < |h| && h[i].pos + h[i].size == span.pos
    requires forall k :: 0 <= k < |h| ==> h[k].pos != span.pos + span.size
    ensures Freed(h, h[i := Hueco(h[i].pos, h[i].size + span.size)], span)
  {
    var x := Hueco(h[i].pos, h[i].size + span.size);
    TotalUpdate(h, i, x);
    BytesOfUpdate(h, h[i := x], i, span);
    forall k | 0 <= k < |h| && k != i ensures Apart(h[k], x) {
      assert Apart(h[k], h[i]);
      ApartFromSpan(h, span, k);
    }
    CanonicalUpdate(h, i, x);
  }

  lemma GrowDownKeeps(h: seq<Hueco>, span: Hueco, j: nat)
    requires Canonical(h) && Taken(h, span)
    requires j < |h| && h[j].pos == span.pos + span.size
    requires forall k :: 0 <= k < |h| ==> h[k].pos + h[k].size != span.pos
    ensures Freed(h, h[j := Hueco(span.pos, h[j].size + span.size)], span)
  {
    var x := Hueco(span.pos, h[j].size + span.size);
    TotalUpdate(h, j, x);
    BytesOfUpdate(h, h[j := x], j, span);
    forall k | 0 <= k < |h| && k != j ensures Apart(h[k], x) {
      assert Apart(h[k], h[j]);
      ApartFromSpan(h, span, k);
    }
    CanonicalUpdate(h, j, x);
  }

  lemma MergeKeeps(h: seq<Hueco>, span: Hueco, i: nat, j: nat)
    requires Canonical(h) && Taken(h, span)
    requires i < |h| && h[i].pos + h[i].size == span.pos
    requires j < |h| && h[j].pos == span.pos + span.size
    ensures i != j
    ensures Freed(h, Merged(h, i, j, span.size), span)
  {
    hide Total;
    var x := Hueco(h[i].pos, h[i].size + span.size + h[j].size);
    TotalUpdate(h, i, x);
    TotalRemove(h[i := x], j);
    BytesOfMerge(h, h[i := x], i, j, span);
    forall k | 0 <= k < |h| && k != i && k != j ensures Apart(h[k], x) {
      assert Apart(h[k], h[i]) && Apart(h[k], h[j]);
      ApartFromSpan(h, span, k);
    }
    CanonicalRemove(h[i := x], j);
  }

  /** Freeing a span adds exactly its bytes to the free set and keeps the list canonical. */
  lemma AlojarFreesSpan(h: seq<Hueco>, base: int, lim: int)
    requires Canonical(h) && Taken(h, Hueco(base, lim))
    ensures Freed(h, Alojar(h, base, lim), Hueco(base, lim))
  {
    hide Canonical, Free, Total;
    var span := Hueco(base, lim);
    var lower, upper := EndingAt(h, base), StartingAt(h, base + lim);
    match (lower, upper)
    case (Some(i), Some(j)) => MergeKeeps(h, span, i, j);
    case (Some(i), None) => GrowUpKeeps(h, span, i);
    case (None, Some(j)) => GrowDownKeeps(h, span, j);
    case (None, None) => AppendKeeps(h, span);
  }

  lemma BytesOfUpdate(h: seq<Hueco>, r: seq<Hueco>, i: nat, span: Hueco)
    requires i < |h| && |r| == |h| && r == h[i := r[i]]
    requires forall b :: r[i].Has(b) <==> h[i].Has(b) || span.Has(b)
    ensures forall b :: Free(r, b) <==> Free(h, b) || span.Has(b)
  {
    forall b ensures Free(r, b) <==> Free(h, b) || span.Has(b) {
      if Free(h, b) {
        var k :| 0 <= k < |h| && h[k].Has(b);
        assert r[k].Has(b);
      }
      if span.Has(b) { assert r[i].Has(b); }
      if Free(r, b) {
        var k :| 0 <= k < |r| && r[k].Has(b);
        assert h[k].Has(b) || span.Has(b);
      }
    }
  }

  lemma BytesOfAppend(h: seq<Hueco>, r: seq<Hueco>, span: Hueco)
    requires r == h + [span]
    ensures forall b :: Free(r, b) <==> Free(h, b) || span.Has(b)
  {
    forall b ensures Free(r, b) <==> Free(h, b) || span.Has(b) {
      if Free(h, b) {
        var k :| 0 <= k < |h| && h[k].Has(b);
        assert r[k].Has(b);
      }
      assert r[|h|] == span;
    }
  }

  lemma BytesOfMerge(h: seq<Hueco>, h': seq<Hueco>, i: nat, j: nat, span: Hueco)
    requires i < |h| && j < |h| && i != j && |h'| == |h| && h' == h[i := h'[i]]
    requires forall b :: h'[i].Has(b) <==> h[i].Has(b) || span.Has(b) || h[j].Has(b)
    ensures forall b :: Free(RemoveAt(h', j), b) <==> Free(h, b) || span.Has(b)
  {
    var r := RemoveAt(h', j);
    forall b ensures Free(r, b) <==> Free(h, b) || span.Has(b) {
      if Free(h, b) || span.Has(b) {
        var k := if span.Has(b) then i else var k :| 0 <= k < |h| && h[k].Has(b); k;
        var k' := if k == j then i else k;
        assert h'[k'].Has(b);
        assert r[if k' < j then k' else k' - 1] == h'[k'];
      }
      if Free(r, b) {
        var k :| 0 <= k < |r| && r[k].Has(b);
        var k' := if k < j then k else k + 1;
        assert h'[k'].Has(b);
        assert h[k'].Has(b) || span.Has(b) || h[j].Has(b);
      }
    }
  }

  /** Taking a hole out removes exactly its bytes. */
  lemma RemoveTakesSpan(h: seq<Hueco>, i: nat)
    requires Canonical(h) && i < |h|
    ensures Canonical(RemoveAt(h, i))
    ensures forall b :: Free(RemoveAt(h, i), b) <==> Free(h, b) && !h[i].Has(b)
    ensures Total(RemoveAt(h, i)) == Total(h) - h[i].size
  {
    TotalRemove(h, i);
    CanonicalRemove(h, i);
    forall b ensures Free(RemoveAt(h, i), b) <==> Free(h, b) && !h[i].Has(b) {
      ByteAfterRemove(h, i, b);
    }
  }

  lemma ByteAfterRemove(h: seq<Hueco>, i: nat, b: int)
    requires Canonical(h) && i < |h|
    ensures Free(RemoveAt(h, i), b) <==> Free(h, b) && !h[i].Has(b)
  {
    var r := RemoveAt(h, i);
    if Free(r, b) {
      var k :| 0 <= k < |r| && r[k].Has(b);
      var k' := if k < i then k else k + 1;
      assert h[k'].Has(b) && Apart(h[k'], h[i]);
    }
    if Free(h, b) && !h[i].Has(b) {
      var k :| 0 <= k < |h| && h[k].Has(b);
      assert r[if k < i then k else k - 1] == h[k];
    }
  }

  /** The bytes just outside a hole are not free. */
  lemma EdgesAreTaken(h: seq<Hueco>, j: nat)
    requires Canonical(h) && j < |h|
    ensures !Free(h, h[j].pos - 1) && !Free(h, h[j].pos + h[j].size)
  {
    forall k | 0 <= k < |h|
      ensures !h[k].Has(h[j].pos - 1) && !h[k].Has(h[j].pos + h[j].size)
    {
      assert k != j ==> Apart(h[k], h[j]);
    }
  }

  /** A canonical hole list is determined, as a set, by the bytes it covers. */
  lemma HoleSetIsUnique(h1: seq<Hueco>, h2: seq<Hueco>)
    requires Canonical(h1) && Canonical(h2)
    requires forall b :: Free(h1, b) <==> Free(h2, b)
    ensures forall x :: x in h1 <==> x in h2
  {
    forall x | x in h1 ensures x in h2 { SameHole(h1, h2, x); }
    forall x | x in h2 ensures x in h1 { SameHole(h2, h1, x); }
  }

  lemma SameHole(h1: seq<Hueco>, h2: seq<Hueco>, x: Hueco)
    requires Canonical(h1) && Canonical(h2) && x in h1
    requires forall b :: Free(h1, b) <==> Free(h2, b)
    ensures x in h2
  {
    var i :| 0 <= i < |h1| && h1[i] == x;
    assert h1[i].Has(x.pos);
    assert Free(h2, x.pos);
    var j :| 0 <= j < |h2| && h2[j].Has(x.pos);
    HoleWithin(h2, h1, j, i, x.pos);
    HoleWithin(h1, h2, i, j, x.pos);
  }

  /** A hole sharing a byte with a canonical list that covers it lies inside one of its holes. */
  lemma HoleWithin(inner: seq<Hueco>, outer: seq<Hueco>, i: nat, j: nat, b: int)
    requires Canonical(inner) && Canonical(outer) && i < |inner| && j < |outer|
    requires forall c :: Free(inner, c) ==> Free(outer, c)
    requires inner[i].Has(b) && outer[j].Has(b)
    ensures outer[j].pos <= inner[i].pos
    ensures inner[i].pos + inner[i].size <= outer[j].pos + outer[j].size
  {
    var x, y := inner[i], outer[j];
    EdgesAreTaken(outer, j);
    assert forall c :: x.Has(c) ==> Free(inner, c);
    assert !x.Has(y.pos - 1) && !x.Has(y.pos + y.size);
  }

  // ----- choosing a hole -----

  predicate Fits(a: Hueco, size: int) { a.size >= size }

  /** The comparison each policy hands to `list_get_minimum` / `list_get_maximum`. */
  predicate Prefers(p: Policy, a: Hueco, b: Hueco) {
    match p
    case Best => a.size <= b.size
    case First => a.pos <= b.pos
    case Worst => a.size >= b.size
  }

  /** The hole the policy takes for a request, by its index; None when no hole is big enough. */
  function Pick(p: Policy, h: seq<Hueco>, size: int): (r: Option<nat>)
    ensures r.None? ==> forall i :: 0 <= i < |h| ==> !Fits(h[i], size)
    ensures r.Some? ==> r.value < |h| && Fits(h[r.value], size)
    ensures r.Some? ==> forall i :: 0 <= i < |h| && Fits(h[i], size) ==> Prefers(p, h[r.value], h[i])
  {
    if h == [] then None
    else
      var n := |h| - 1;
      match Pick(p, h[..n], size)
      case None =>
        assert forall i :: 0 <= i < n ==> h[i] == h[..n][i];
        if Fits(h[n], size) then Some(n) else None
      case Some(i) =>
        assert forall k :: 0 <= k < n ==> h[k] == h[..n][k];
        if Fits(h[n], size) && !Prefers(p, h[i], h[n]) then Some(n) else Some(i)
  }

  /** The lowest hole: `list_get_minimum` by position. */
  function FirstHole(h: seq<Hueco>): (r: nat)
    requires |h| > 0
    ensures r < |h| && forall i :: 0 <= i < |h| ==> h[r].pos <= h[i].pos
  {
    var n := |h| - 1;
    if n == 0 then 0
    else
      var i := FirstHole(h[..n]);
      assert forall k :: 0 <= k < n ==> h[k] == h[..n][k];
      if h[i].pos <= h[n].pos then i else n
  }

  lemma HoleHasBytes(h: seq<Hueco>, i: nat)
    requires Canonical(h) && i < |h|
    ensures h[i].size > 0
  {
  }

  lemma NonEmptyIfFree(h: seq<Hueco>, b: int)
    ensures Free(h, b) ==> |h| > 0
  {
  }

  lemma NothingBelowFirst(h: seq<Hueco>, b: int)
    requires |h| > 0 && b < h[FirstHole(h)].pos
    ensures !Free(h, b)
  {
  }

  /** The lowest hole starts at the lowest free byte. */
  lemma FirstHoleIsLowestFree(h: seq<Hueco>, b: int)
    requires Canonical(h) && Free(h, b) && forall c :: c < b ==> !Free(h, c)
    ensures |h| > 0 && h[FirstHole(h)].pos == b
  {
    var i :| 0 <= i < |h| && h[i].Has(b);
    var f := FirstHole(h);
    assert h[f].Has(h[f].pos) && Free(h, h[f].pos);
  }

  lemma {:induction false} TotalNonNegative(h: seq<Hueco>)
    requires forall i :: 0 <= i < |h| ==> h[i].size > 0
    ensures Total(h) >= |h|
  {
    if h != [] { TotalNonNegative(h[..|h| - 1]); }
  }
}
