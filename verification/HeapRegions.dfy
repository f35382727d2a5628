/** Regions of the static heap: how many of a list's regions hold an address, and what adding a
    region to the free list (with merging) or taking one out does to that count. */
module HeapRegions {
  import opened Dyadic

  /** Bytes of a list node, and its alignment as a power of two. */
  const NODE: nat := 16
  const NODE_ALIGN: nat := 3

  datatype Region = Region(start: nat, size: nat) {
    function End(): nat {
      start + size
    }

    /** 1 at the addresses of the region, 0 elsewhere. */
    function At(x: nat): nat {
      if start <= x < start + size then 1 else 0
    }
  }

  /** How many regions of the list hold `x`. */
  ghost function Count(l: seq<Region>, x: nat): nat {
    if l == [] then 0 else Count(l[..|l| - 1], x) + l[|l| - 1].At(x)
  }

  /** `more` counts what `less` counts, and `r`. */
  ghost predicate Adds(less: seq<Region>, more: seq<Region>, r: Region) {
    forall x: nat {:trigger r.At(x)} :: Count(more, x) == Count(less, x) + r.At(x)
  }

  lemma {:induction false} CountConcat(a: seq<Region>, b: seq<Region>, x: nat)
    ensures Count(a + b, x) == Count(a, x) + Count(b, x)
  {
    if b == [] {
      assert a + b == a;
    } else {
      assert (a + b)[..|a + b| - 1] == a + b[..|b| - 1];
      CountConcat(a, b[..|b| - 1], x);
    }
  }

  lemma CountOne(r: Region, x: nat)
    ensures Count([r], x) == r.At(x)
  {
    assert [r][..0] == [];
  }

  /** The count around one position. */
  lemma CountAround(l: seq<Region>, i: nat, x: nat)
    requires i < |l|
    ensures Count(l, x) == Count(l[..i], x) + l[i].At(x) + Count(l[i + 1..], x)
  {
    assert l == l[..i] + ([l[i]] + l[i + 1..]);
    CountConcat(l[..i], [l[i]] + l[i + 1..], x);
    CountConcat([l[i]], l[i + 1..], x);
    CountOne(l[i], x);
  }

  lemma CountHolds(l: seq<Region>, i: nat, x: nat)
    requires i < |l| && l[i].start <= x < l[i].End()
    ensures Count(l, x) >= 1
  {
    CountAround(l, i, x);
  }

  // ---- the free list -----------------------------------------------------------------------------

  ghost predicate RegionOk(r: Region) {
    r.size >= NODE && AlignedAt(r.start, NODE_ALIGN)
  }

  /** Sorted by address, every region able to hold a node, no two touching. */
  ghost predicate Sorted(l: seq<Region>) {
    && (forall i :: 0 <= i < |l| ==> RegionOk(l[i]))
    && forall i, j :: 0 <= i < j < |l| ==> l[i].End() < l[j].start
  }

  /** `r` goes before position `p`: nothing of the list lies on it. */
  ghost predicate Slot(l: seq<Region>, r: Region, p: nat) {
    && p <= |l| && (forall i :: 0 <= i < p ==> l[i].End() <= r.start)
    && forall i :: p <= i < |l| ==> r.End() <= l[i].start
  }

  predicate TouchesLeft(l: seq<Region>, r: Region, p: nat)
    requires p <= |l|
  {
    p > 0 && l[p - 1].End() == r.start
  }

  predicate TouchesRight(l: seq<Region>, r: Region, p: nat)
    requires p <= |l|
  {
    p < |l| && r.End() == l[p].start
  }

  /** The region that covers `r` once it is merged with its neighbours. */
  function Merged(l: seq<Region>, r: Region, p: nat): Region
    requires p <= |l|
  {
    var start := if TouchesLeft(l, r, p) then l[p - 1].start else r.start;
    var left := if TouchesLeft(l, r, p) then l[p - 1].size else 0;
    var right := if TouchesRight(l, r, p) then l[p].size else 0;
    Region(start, left + r.size + right)
  }

  /** The list with `r` added at `p`. */
  function Added(l: seq<Region>, r: Region, p: nat): seq<Region>
    requires p <= |l|
  {
    l[..if TouchesLeft(l, r, p) then p - 1 else p] + [Merged(l, r, p)] + l[if TouchesRight(l, r, p) then p + 1 else p..]
  }

  lemma MergedAt(l: seq<Region>, r: Region, p: nat, x: nat)
    requires p <= |l|
    ensures Merged(l, r, p).At(x) == (if TouchesLeft(l, r, p) then l[p - 1].At(x) else 0) + r.At(x) +
                                     (if TouchesRight(l, r, p) then l[p].At(x) else 0)
  {
  }

  /** Adding a region adds its addresses and nothing else, merged or not. */
  lemma AddedCount(l: seq<Region>, r: Region, p: nat, x: nat)
    requires p <= |l|
    ensures Count(Added(l, r, p), x) == Count(l, x) + r.At(x)
  {
    var a := if TouchesLeft(l, r, p) then p - 1 else p;
    var b := if TouchesRight(l, r, p) then p + 1 else p;
    var m := Merged(l, r, p);
    CountConcat(l[..a] + [m], l[b..], x);
    CountConcat(l[..a], [m], x);
    CountOne(m, x);
    MergedAt(l, r, p, x);
    SplitCount(l, a, b, x);
    MiddleCount(l, a, p, b, x);
  }

  lemma SplitCount(l: seq<Region>, a: nat, b: nat, x: nat)
    requires a <= b <= |l|
    ensures Count(l, x) == Count(l[..a], x) + Count(l[a..b], x) + Count(l[b..], x)
  {
    assert l == l[..a] + (l[a..b] + l[b..]);
    CountConcat(l[..a], l[a..b] + l[b..], x);
    CountConcat(l[a..b], l[b..], x);
  }

  lemma MiddleCount(l: seq<Region>, a: nat, p: nat, b: nat, x: nat)
    requires a <= p <= b <= |l| && p <= a + 1 && b <= p + 1
    ensures Count(l[a..b], x) == (if a < p then l[p - 1].At(x) else 0) + (if p < b then l[p].At(x) else 0)
  {
    var left := if a < p then [l[p - 1]] else [];
    var right := if p < b then [l[p]] else [];
    assert l[a..b] == left + right;
    CountConcat(left, right, x);
    if a < p {
      CountOne(l[p - 1], x);
    }
    if p < b {
      CountOne(l[p], x);
    }
  }

  /** ... and keeps the list sorted with no two regions touching. */
  lemma AddedSorted(l: seq<Region>, r: Region, p: nat)
    requires Sorted(l) && RegionOk(r) && Slot(l, r, p)
    ensures Sorted(Added(l, r, p))
  {
    var m := Merged(l, r, p);
    var a := if TouchesLeft(l, r, p) then p - 1 else p;
    var b := if TouchesRight(l, r, p) then p + 1 else p;
    SortedSlices(l, a, b);
    MergedApart(l, r, p);
    SortedJoin(l[..a], m, l[b..]);
  }

  lemma SortedSlices(l: seq<Region>, a: nat, b: nat)
    requires Sorted(l) && a <= |l| && b <= |l|
    ensures Sorted(l[..a]) && Sorted(l[b..])
  {
    assert forall i :: 0 <= i < |l| - b ==> l[b..][i] == l[b + i];
  }

  lemma MergedApart(l: seq<Region>, r: Region, p: nat)
    requires Sorted(l) && RegionOk(r) && Slot(l, r, p)
    ensures RegionOk(Merged(l, r, p))
    ensures forall i :: 0 <= i < (if TouchesLeft(l, r, p) then p - 1 else p) ==> l[i].End() < Merged(l, r, p).start
    ensures forall i :: (if TouchesRight(l, r, p) then p + 1 else p) <= i < |l| ==> Merged(l, r, p).End() < l[i].start
  {
    forall i | 0 <= i < (if TouchesLeft(l, r, p) then p - 1 else p)
      ensures l[i].End() < Merged(l, r, p).start
    {
      assert i < p - 1 ==> l[i].End() < l[p - 1].start;
    }
    forall i | (if TouchesRight(l, r, p) then p + 1 else p) <= i < |l|
      ensures Merged(l, r, p).End() < l[i].start
    {
      assert i > p ==> l[p].End() < l[i].start;
    }
  }

  lemma SortedJoin(a: seq<Region>, m: Region, b: seq<Region>)
    requires Sorted(a) && Sorted(b) && RegionOk(m) && (forall i :: 0 <= i < |a| ==> a[i].End() < m.start)
    requires forall i :: 0 <= i < |b| ==> m.End() < b[i].start
    ensures Sorted(a + [m] + b)
  {
    var l := a + [m] + b;
    forall i, j | 0 <= i < j < |l|
      ensures l[i].End() < l[j].start
    {
      if i < |a| && j > |a| {
        assert a[i].End() < m.start && m.End() < b[j - |a| - 1].start;
      }
    }
  }

  lemma RemovedSorted(l: seq<Region>, i: nat)
    requires Sorted(l) && i < |l|
    ensures Sorted(l[..i] + l[i + 1..])
  {
  }

  lemma RemovedCount(l: seq<Region>, i: nat, x: nat)
    requires i < |l|
    ensures Count(l[..i] + l[i + 1..], x) + l[i].At(x) == Count(l, x)
  {
    CountAround(l, i, x);
    CountConcat(l[..i], l[i + 1..], x);
  }

  lemma {:induction false} CountWitness(l: seq<Region>, x: nat) returns (i: nat)
    requires Count(l, x) > 0
    ensures i < |l| && l[i].start <= x < l[i].End()
  {
    if l[|l| - 1].At(x) == 1 {
      return |l| - 1;
    }
    i := CountWitness(l[..|l| - 1], x);
  }

  lemma SlotDisjoint(l: seq<Region>, r: Region, p: nat, x: nat)
    requires Slot(l, r, p) && r.At(x) == 1
    ensures Count(l, x) == 0
  {
    if Count(l, x) > 0 {
      var i := CountWitness(l, x);
    }
  }

  lemma RemovedAdds(l: seq<Region>, i: nat)
    requires i < |l|
    ensures Adds(l[..i] + l[i + 1..], l, l[i])
    ensures forall x: nat {:trigger l[i].At(x)} :: l[i].At(x) == 1 ==> Count(l, x) >= 1
  {
    forall x: nat
      ensures Count(l, x) == Count(l[..i] + l[i + 1..], x) + l[i].At(x)
    {
      RemovedCount(l, i, x);
    }
  }

  lemma OneAdds(r: Region)
    ensures Adds([], [r], r)
  {
    forall x: nat
      ensures Count([r], x) == Count([], x) + r.At(x)
    {
      CountOne(r, x);
    }
  }

  /** A region cut in three. */
  lemma CutAdds(region: Region, a: nat, size: nat)
    requires region.start <= a && a + size <= region.End()
    ensures Adds([Region(a, region.End() - a)], [region], Region(region.start, a - region.start))
    ensures Adds([Region(a, size)], [Region(a, region.End() - a)], Region(a + size, region.End() - (a + size)))
  {
    var tail := Region(a, region.End() - a);
    var (prefix, rest) := (Region(region.start, a - region.start), Region(a + size, region.End() - (a + size)));
    forall x: nat
      ensures Count([region], x) == Count([tail], x) + prefix.At(x)
      ensures Count([tail], x) == Count([Region(a, size)], x) + rest.At(x)
    {
      CountOne(region, x);
      CountOne(tail, x);
      CountOne(Region(a, size), x);
    }
  }

  ghost predicate SameCount(a: seq<Region>, b: seq<Region>) {
    forall x: nat {:trigger Count(a, x)} {:trigger Count(b, x)} :: Count(a, x) == Count(b, x)
  }

  lemma CountTwo(r: Region, s: Region, x: nat)
    ensures Count([r, s], x) == r.At(x) + s.At(x)
  {
    assert [r, s] == [r] + [s];
    CountConcat([r], [s], x);
    CountOne(r, x);
    CountOne(s, x);
  }

  /** The first block of a run, and what is left of it from `offset` on. */
  ghost function Rest(a: nat, block: nat, offset: nat, total: nat): seq<Region>
    requires offset <= total
  {
    [Region(a, block), Region(a + offset, total - offset)]
  }

  lemma RunSplit(a: nat, block: nat, total: nat)
    requires block <= total
    ensures SameCount([Region(a, total)], Rest(a, block, block, total))
  {
    forall x: nat
      ensures Count([Region(a, total)], x) == Count(Rest(a, block, block, total), x)
    {
      CountOne(Region(a, total), x);
      CountTwo(Region(a, block), Region(a + block, total - block), x);
    }
  }

  lemma RunEnds(a: nat, block: nat, total: nat)
    ensures SameCount(Rest(a, block, total, total), [Region(a, block)])
  {
    forall x: nat
      ensures Count(Rest(a, block, total, total), x) == Count([Region(a, block)], x)
    {
      CountOne(Region(a, block), x);
      CountTwo(Region(a, block), Region(a + total, 0), x);
    }
  }

  /** Another block leaves the rest of the run. */
  lemma RunStep(a: nat, block: nat, offset: nat, total: nat)
    requires offset + block <= total
    ensures Adds(Rest(a, block, offset + block, total), Rest(a, block, offset, total), Region(a + offset, block))
  {
    var r := Region(a + offset, block);
    forall x: nat
      ensures Count(Rest(a, block, offset, total), x) == Count(Rest(a, block, offset + block, total), x) + r.At(x)
    {
      CountTwo(Region(a, block), Region(a + offset, total - offset), x);
      CountTwo(Region(a, block), Region(a + (offset + block), total - (offset + block)), x);
    }
  }
}
