/** A process's memory map: the sorted region list behind `brk`, `mmap`, `munmap` and
    `mprotect`. Its meaning is a function on addresses, `At`: every operation is proved to
    be a pointwise change of that function, and to say exactly which pages changed.
  */
module MemoryMaps {
  import opened Bytes
  import opened Outcomes
  import opened PageLeaves

  const MIN_ADDRESS: nat := 0x1_0000

  datatype Protection = Protection(read: bool, write: bool, execute: bool)

  const NONE := Protection(false, false, false)
  const READ_WRITE := Protection(true, true, false)

  datatype Kind = Image | Heap | Stack | Anonymous | Device(physical: nat)

  datatype Region = Region(start: nat, end: nat, protection: Protection, kind: Kind)

  datatype Span = Span(start: nat, end: nat, protection: Protection)

  /** What lies behind one address; for device memory, the physical address there. */
  datatype Backing = Backing(protection: Protection, kind: Kind)

  // ---- addresses ---------------------------------------------------------------------

  /** Round up to a page, or nothing if that does not fit in 64 bits. */
  function PageUp(a: nat): (r: Option<nat>)
    ensures r.Some? ==> a <= r.value < a + PAGE && Aligned(r.value) && r.value <= U64_MAX
    ensures Aligned(a) && a <= U64_MAX ==> r == Some(a)
    ensures r.None? <==> (a + PAGE - 1) / PAGE * PAGE > U64_MAX
  {
    var up := (a + PAGE - 1) / PAGE * PAGE;
    if up <= U64_MAX then Some(up) else None
  }

  function CheckedAdd(a: nat, b: nat): Option<nat> {
    if a + b <= U64_MAX then Some(a + b) else None
  }

  function Max(a: nat, b: nat): nat {
    if a < b then b else a
  }

  function Min(a: nat, b: nat): nat {
    if a < b then a else b
  }

  /** Protections the system ever asks for: readable if anything, never writable and
      executable at once. */
  predicate Sane(p: Protection) {
    (p.write || p.execute ==> p.read) && !(p.write && p.execute)
  }

  function FromLinux(bits: nat): (r: Result<Protection>)
    ensures r.Ok? ==> Sane(r.value) && (r.value == NONE <==> bits == 0)
    ensures r.Ok? <==> bits in {0, 1, 2, 3, 4, 5}
    ensures r.Ok? ==> (r.value.write <==> bits in {2, 3}) && (r.value.execute <==> bits in {4, 5})
    ensures (r == Err(EACCES) <==> bits in {6, 7}) && (r == Err(EINVAL) <==> bits >= 8)
  {
    if bits >= 8 then Err(EINVAL) else
    var p := Protection(bits != 0, bits / 2 % 2 == 1, bits / 4 % 2 == 1);
    if p.write && p.execute then Err(EACCES) else Ok(p)
  }

  // ---- regions -------------------------------------------------------------------------

  function KindAt(r: Region, a: nat): Kind
    requires r.start <= a
  {
    if r.kind.Device? then Device(r.kind.physical + (a - r.start)) else r.kind
  }

  function BackingAt(r: Region, a: nat): Backing
    requires r.start <= a
  {
    Backing(r.protection, KindAt(r, a))
  }

  predicate Holds(r: Region, a: nat) {
    r.start <= a < r.end
  }

  function Piece(r: Region, start: nat, end: nat): (p: Region)
    requires r.start <= start
    ensures p.start == start && p.end == end
    ensures forall a :: start <= a ==> BackingAt(p, a) == BackingAt(r, a)
  {
    Region(start, end, r.protection, KindAt(r, start))
  }

  /** The region list as a function on addresses (`region_at`). */
  function At(rs: seq<Region>, a: nat): Option<Backing> {
    if rs == [] then None
    else if Holds(rs[0], a) then Some(BackingAt(rs[0], a))
    else At(rs[1..], a)
  }

  predicate WellFormed(r: Region) {
    r.start < r.end && Aligned(r.start) && Aligned(r.end) && Sane(r.protection)
  }

  /** Sorted, disjoint, aligned, nonempty, and inside `lo..hi`. */
  predicate Sorted(rs: seq<Region>, lo: nat, hi: nat) {
    if rs == [] then lo <= hi
    else WellFormed(rs[0]) && lo <= rs[0].start && Sorted(rs[1..], rs[0].end, hi)
  }

  function OverlapsAny(rs: seq<Region>, start: nat, end: nat): bool {
    exists i :: 0 <= i < |rs| && start < rs[i].end && rs[i].start < end
  }

  /** What is left of one region without `start..end`. */
  function Cut(r: Region, start: nat, end: nat): seq<Region> {
    if r.end <= start || end <= r.start then [r]
    else (if r.start < start then [Piece(r, r.start, start)] else []) +
         (if end < r.end then [Piece(r, end, r.end)] else [])
  }

  function Without(rs: seq<Region>, start: nat, end: nat): seq<Region> {
    if rs == [] then [] else Cut(rs[0], start, end) + Without(rs[1..], start, end)
  }

  function CutSpan(r: Region, start: nat, end: nat): seq<Span> {
    if r.end <= start || end <= r.start then []
    else [Span(Max(r.start, start), Min(r.end, end), r.protection)]
  }

  function RemovedSpans(rs: seq<Region>, start: nat, end: nat): seq<Span> {
    if rs == [] then [] else CutSpan(rs[0], start, end) + RemovedSpans(rs[1..], start, end)
  }

  predicate InSpans(spans: seq<Span>, a: nat) {
    exists i :: 0 <= i < |spans| && spans[i].start <= a < spans[i].end
  }

  /** Spans as page ranges: aligned and nonempty. */
  predicate AlignedSpans(spans: seq<Span>) {
    forall i :: 0 <= i < |spans| ==> spans[i].start < spans[i].end && Aligned(spans[i].start) && Aligned(spans[i].end)
  }

  function InsertIndex(rs: seq<Region>, start: nat): (i: nat)
    ensures i <= |rs|
  {
    if rs == [] || rs[0].start >= start then 0 else 1 + InsertIndex(rs[1..], start)
  }

  function Inserted(rs: seq<Region>, r: Region): seq<Region> {
    var i := InsertIndex(rs, r.start);
    rs[..i] + [r] + rs[i..]
  }

  // ---- pointwise facts -----------------------------------------------------------------

  lemma {:induction false} AtConcat(xs: seq<Region>, ys: seq<Region>, a: nat)
    ensures At(xs + ys, a) == if At(xs, a).Some? then At(xs, a) else At(ys, a)
  {
    if xs == [] {
      assert xs + ys == ys;
    } else {
      assert (xs + ys)[1..] == xs[1..] + ys;
      AtConcat(xs[1..], ys, a);
    }
  }

  lemma {:induction false} AtBelow(rs: seq<Region>, lo: nat, hi: nat, a: nat)
    requires Sorted(rs, lo, hi)
    ensures lo <= hi
    ensures a < lo || hi <= a ==> At(rs, a) == None
  {
    if rs != [] {
      AtBelow(rs[1..], rs[0].end, hi, a);
    }
  }

  lemma OverlapTail(rs: seq<Region>, start: nat, end: nat)
    requires rs != []
    ensures OverlapsAny(rs, start, end) <==>
            (start < rs[0].end && rs[0].start < end) || OverlapsAny(rs[1..], start, end)
  {
    forall i | 0 <= i < |rs[1..]|
      ensures rs[1..][i] == rs[i + 1]
    {
    }
    if OverlapsAny(rs, start, end) {
      var i :| 0 <= i < |rs| && start < rs[i].end && rs[i].start < end;
      assert i > 0 ==> rs[1..][i - 1] == rs[i];
    }
  }

  ghost predicate Covered(rs: seq<Region>, start: nat, end: nat) {
    exists a :: start <= a < end && At(rs, a).Some?
  }

  /** Something overlaps `start..end` exactly when some address there is covered. */
  lemma {:induction false} OverlapIsCover(rs: seq<Region>, lo: nat, hi: nat, start: nat, end: nat)
    requires Sorted(rs, lo, hi) && start < end
    ensures OverlapsAny(rs, start, end) <==> Covered(rs, start, end)
  {
    if rs != [] {
      var r := rs[0];
      OverlapTail(rs, start, end);
      OverlapIsCover(rs[1..], r.end, hi, start, end);
      if start < r.end && r.start < end {
        assert At(rs, Max(start, r.start)).Some?;
      } else {
        forall a | start <= a < end
          ensures At(rs, a) == At(rs[1..], a)
        {
        }
      }
    }
  }

  /** Removing a range is pointwise: gone inside, untouched outside. */
  lemma {:induction false} WithoutAt(rs: seq<Region>, lo: nat, hi: nat, start: nat, end: nat, a: nat)
    requires Sorted(rs, lo, hi) && start <= end
    ensures At(Without(rs, start, end), a) == if start <= a < end then None else At(rs, a)
  {
    if rs != [] {
      WithoutAt(rs[1..], rs[0].end, hi, start, end, a);
      AtConcat(Cut(rs[0], start, end), Without(rs[1..], start, end), a);
      AtBelow(rs[1..], rs[0].end, hi, a);
      CutAt(rs[0], start, end, a);
    }
  }

  lemma CutAt(r: Region, start: nat, end: nat, a: nat)
    requires r.start < r.end && start <= end
    ensures At(Cut(r, start, end), a) == if Holds(r, a) && !(start <= a < end) then Some(BackingAt(r, a)) else None
  {
    if !(r.end <= start || end <= r.start) {
      AtConcat(if r.start < start then [Piece(r, r.start, start)] else [],
               if end < r.end then [Piece(r, end, r.end)] else [], a);
    }
  }

  lemma {:induction false} WithoutSorted(rs: seq<Region>, lo: nat, hi: nat, start: nat, end: nat)
    requires Sorted(rs, lo, hi) && Aligned(start) && Aligned(end) && start <= end
    ensures Sorted(Without(rs, start, end), lo, hi)
  {
    if rs != [] {
      var tail := Without(rs[1..], start, end);
      WithoutSorted(rs[1..], rs[0].end, hi, start, end);
      var c := Cut(rs[0], start, end);
      if |c| == 0 {
        assert c + tail == tail;
        SortedFromBelow(tail, rs[0].end, lo, hi);
      } else if |c| == 1 {
        assert (c + tail)[1..] == tail;
        SortedFromBelow(tail, rs[0].end, c[0].end, hi);
      } else {
        assert (c + tail)[1..] == [c[1]] + tail;
        assert ([c[1]] + tail)[1..] == tail;
      }
    }
  }

  lemma SortedFromBelow(rs: seq<Region>, lo: nat, lo': nat, hi: nat)
    requires Sorted(rs, lo, hi) && lo' <= lo
    ensures Sorted(rs, lo', hi)
  {
    AtBelow(rs, lo, hi, lo);
  }

  /** The spans reported for unmapping cover exactly the addresses that were mapped there. */
  lemma {:induction false} RemovedExactly(rs: seq<Region>, lo: nat, hi: nat, start: nat, end: nat, a: nat)
    requires Sorted(rs, lo, hi)
    ensures InSpans(RemovedSpans(rs, start, end), a) <==> start <= a < end && At(rs, a).Some?
  {
    if rs != [] {
      var c, rest := CutSpan(rs[0], start, end), RemovedSpans(rs[1..], start, end);
      RemovedExactly(rs[1..], rs[0].end, hi, start, end, a);
      InSpansConcat(c, rest, a);
      assert InSpans(c, a) <==> start <= a < end && Holds(rs[0], a) by {
        if c != [] {
          assert c[0].start <= a < c[0].end <==> start <= a < end && Holds(rs[0], a);
        }
      }
    }
  }

  lemma InSpansConcat(xs: seq<Span>, ys: seq<Span>, a: nat)
    ensures InSpans(xs + ys, a) <==> InSpans(xs, a) || InSpans(ys, a)
  {
    if InSpans(xs, a) {
      var i :| 0 <= i < |xs| && xs[i].start <= a < xs[i].end;
      assert (xs + ys)[i] == xs[i];
    }
    if InSpans(ys, a) {
      var i :| 0 <= i < |ys| && ys[i].start <= a < ys[i].end;
      assert (xs + ys)[|xs| + i] == ys[i];
    }
    if InSpans(xs + ys, a) {
      var i :| 0 <= i < |xs + ys| && (xs + ys)[i].start <= a < (xs + ys)[i].end;
      assert i < |xs| ==> xs[i] == (xs + ys)[i];
      assert i >= |xs| ==> ys[i - |xs|] == (xs + ys)[i];
    }
  }

  lemma {:induction false} RemovedAligned(rs: seq<Region>, lo: nat, hi: nat, start: nat, end: nat)
    requires Sorted(rs, lo, hi) && Aligned(start) && Aligned(end) && start < end
    ensures AlignedSpans(RemovedSpans(rs, start, end))
  {
    if rs != [] {
      var c, rest := CutSpan(rs[0], start, end), RemovedSpans(rs[1..], start, end);
      RemovedAligned(rs[1..], rs[0].end, hi, start, end);
      forall i | 0 <= i < |c + rest|
        ensures (c + rest)[i] == if i < |c| then c[i] else rest[i - |c|]
      {
      }
    }
  }

  /** Inserting into a gap is pointwise too, and keeps the list sorted. */
  lemma {:induction false} InsertedSorted(rs: seq<Region>, lo: nat, hi: nat, r: Region)
    requires Sorted(rs, lo, hi) && WellFormed(r) && lo <= r.start && r.end <= hi
    requires !OverlapsAny(rs, r.start, r.end)
    ensures Sorted(Inserted(rs, r), lo, hi)
  {
    if rs != [] {
      OverlapTail(rs, r.start, r.end);
    }
    if rs == [] || rs[0].start >= r.start {
      assert Inserted(rs, r) == [r] + rs;
      assert Inserted(rs, r)[1..] == rs;
    } else {
      assert Inserted(rs, r)[0] == rs[0];
      assert Inserted(rs, r)[1..] == Inserted(rs[1..], r);
      InsertedSorted(rs[1..], rs[0].end, hi, r);
    }
  }

  lemma InsertedAt(rs: seq<Region>, lo: nat, hi: nat, r: Region, a: nat)
    requires Sorted(rs, lo, hi) && r.start < r.end && !OverlapsAny(rs, r.start, r.end)
    ensures At(Inserted(rs, r), a) == if Holds(r, a) then Some(BackingAt(r, a)) else At(rs, a)
  {
    var i := InsertIndex(rs, r.start);
    assert rs == rs[..i] + rs[i..];
    AtConcat(rs[..i], rs[i..], a);
    AtConcat(rs[..i] + [r], rs[i..], a);
    AtConcat(rs[..i], [r], a);
    if Holds(r, a) {
      OverlapIsCover(rs, lo, hi, r.start, r.end);
      assert At(rs, a).None?;
    }
  }

  // ---- regions by position -------------------------------------------------------------

  lemma {:induction false} SortedAt(rs: seq<Region>, lo: nat, hi: nat, j: nat)
    requires Sorted(rs, lo, hi) && j < |rs|
    ensures WellFormed(rs[j]) && lo <= rs[j].start && rs[j].end <= hi
  {
    AtBelow(rs[1..], rs[0].end, hi, 0);
    if j > 0 {
      SortedAt(rs[1..], rs[0].end, hi, j - 1);
    }
  }

  lemma {:induction false} SortedPair(rs: seq<Region>, lo: nat, hi: nat, i: nat, j: nat)
    requires Sorted(rs, lo, hi) && i < j < |rs|
    ensures rs[i].end <= rs[j].start
  {
    if i > 0 {
      SortedPair(rs[1..], rs[0].end, hi, i - 1, j - 1);
    } else {
      SortedAt(rs[1..], rs[0].end, hi, j - 1);
    }
  }

  lemma {:induction false} AtIndex(rs: seq<Region>, lo: nat, hi: nat, j: nat, a: nat)
    requires Sorted(rs, lo, hi) && j < |rs| && Holds(rs[j], a)
    ensures At(rs, a) == Some(BackingAt(rs[j], a))
  {
    if j > 0 {
      SortedPair(rs, lo, hi, 0, j);
      AtIndex(rs[1..], rs[0].end, hi, j - 1, a);
    }
  }

  lemma {:induction false} AtNowhere(rs: seq<Region>, a: nat)
    requires forall j :: 0 <= j < |rs| ==> !Holds(rs[j], a)
    ensures At(rs, a) == None
  {
    if rs != [] {
      assert !Holds(rs[0], a);
      forall j | 0 <= j < |rs[1..]|
        ensures !Holds(rs[1..][j], a)
      {
        assert rs[1..][j] == rs[j + 1];
      }
      AtNowhere(rs[1..], a);
    }
  }

  // ---- the map and its operations ----------------------------------------------------

  datatype BrkChange = Unchanged | Map(span: Span) | Unmap(span: Span)

  datatype MmapChange = MmapChange(address: nat, replaced: seq<Span>, added: Span)

  /** Where `mmap` may start: above the heap and the lowest allowed address. */
  function Floor(up: nat): nat {
    Max(up, MIN_ADDRESS)
  }

  lemma AlignedSub(a: nat, b: nat)
    requires b <= a
    ensures Aligned(a) && Aligned(b) ==> Aligned(a - b)
  {
  }

  ghost predicate FreeRange(rs: seq<Region>, start: nat, length: nat) {
    !Covered(rs, start, start + length)
  }

  /** The free ranges `find_free` may choose from. */
  ghost predicate Fits(rs: seq<Region>, floor: nat, top: nat, length: nat, start: nat) {
    floor <= start && start + length <= top && FreeRange(rs, start, length)
  }

  predicate UsableBelow(top: nat, start: nat, length: nat) {
    MIN_ADDRESS <= start && Aligned(start) && start + length <= top
  }

  /** The hint can be had. */
  ghost predicate HintServes(rs: seq<Region>, top: nat, hint: nat, length: nat) {
    hint != 0 && UsableBelow(top, hint, length) && FreeRange(rs, hint, length)
  }

  /** A free range lies above the heap. */
  ghost predicate SomeFit(rs: seq<Region>, brk: nat, top: nat, length: nat) {
    PageUp(brk).Some? && exists s: nat :: Fits(rs, Floor(PageUp(brk).value), top, length, s)
  }

  /** ... and none lies higher than this one. */
  ghost predicate HighestFit(rs: seq<Region>, brk: nat, top: nat, length: nat, start: nat) {
    && PageUp(brk).Some? && Fits(rs, Floor(PageUp(brk).value), top, length, start)
    && forall s: nat :: Fits(rs, Floor(PageUp(brk).value), top, length, s) ==> s <= start
  }

  /** Where `mmap` puts a range of whole pages: a fixed one at the hint, another there if the hint can
      be had, otherwise as high as it fits. */
  ghost predicate Chosen(rs: seq<Region>, brk: nat, top: nat, hint: nat, length: nat, fixed: bool, start: nat) {
    if fixed then start == hint && UsableBelow(top, hint, length)
    else if HintServes(rs, top, hint, length) then start == hint
    else HighestFit(rs, brk, top, length, start)
  }

  /** Whether it finds a place at all, for any number of bytes. */
  ghost predicate HasPlace(rs: seq<Region>, brk: nat, top: nat, hint: nat, length: nat, fixed: bool) {
    && PageUp(length).Some?
    && if fixed then UsableBelow(top, hint, PageUp(length).value)
       else HintServes(rs, top, hint, PageUp(length).value) || SomeFit(rs, brk, top, PageUp(length).value)
  }

  class MemoryMap {
    var regions: seq<Region>
    var brk: nat
    const brkStart: nat
    const mmapTop: nat

    /** What every operation keeps. Heap regions lie between the heap's start and the
        page-rounded break. */
    ghost predicate Valid()
      reads this
    {
      && Sorted(regions, 0, USER_END)
      && Aligned(brkStart) && Aligned(mmapTop) && mmapTop <= USER_END
      && brkStart <= brk <= U64_MAX
      && HeapWithin(regions, brkStart, brk)
    }

    /** The map of a freshly exec'd program, from regions already laid out. */
    constructor (regions: seq<Region>, brkStart: nat, brk: nat, mmapTop: nat)
      ensures this.regions == regions && this.brkStart == brkStart && this.brk == brk && this.mmapTop == mmapTop
    {
      this.regions, this.brkStart, this.brk, this.mmapTop := regions, brkStart, brk, mmapTop;
    }

    /** `insert`. */
    method Insert(r: Region) returns (ok: Result<()>)
      requires Sorted(regions, 0, USER_END) && Sane(r.protection) && r.end <= USER_END
      modifies this`regions
      ensures Sorted(regions, 0, USER_END)
      ensures ok.Err? ==> regions == old(regions)
      ensures ok == (if !WellFormed(r) then Err(EINVAL)
                     else if Covered(old(regions), r.start, r.end) then Err(ENOMEM) else Ok(()))
      ensures ok.Ok? ==> PlacedOver(old(regions), regions, r)
    {
      if r.start >= r.end || !Aligned(r.start) || !Aligned(r.end) {
        return Err(EINVAL);
      }
      OverlapIsCover(regions, 0, USER_END, r.start, r.end);
      if OverlapsAny(regions, r.start, r.end) {
        return Err(ENOMEM);
      }
      var i := 0;
      while i < |regions| && regions[i].start < r.start
        invariant i <= |regions|
        invariant InsertIndex(regions, r.start) == i + InsertIndex(regions[i..], r.start)
      {
        assert regions[i..][1..] == regions[i + 1..];
        i := i + 1;
      }
      InsertedSorted(regions, 0, USER_END, r);
      InsertedFacts(regions, r);
      regions := regions[..i] + [r] + regions[i..];
      ok := Ok(());
    }

    /** `find_free`: the highest free range of `length` bytes below `mmapTop` and above the
        break, if there is one. */
    method FindFree(length: nat) returns (found: Option<nat>)
      requires Sorted(regions, 0, USER_END) && 0 < length
      ensures found.Some? ==> PageUp(brk).Some?
      ensures found.Some? ==> Fits(regions, Floor(PageUp(brk).value), mmapTop, length, found.value)
      ensures found.Some? ==>
            forall s: nat :: Fits(regions, Floor(PageUp(brk).value), mmapTop, length, s) ==> s <= found.value
      ensures found.None? && PageUp(brk).Some? ==>
                forall s: nat :: !Fits(regions, Floor(PageUp(brk).value), mmapTop, length, s)
      ensures found.Some? && Aligned(mmapTop) && Aligned(length) ==> Aligned(found.value)
    {
      var up := PageUp(brk);
      if up.None? {
        return None;
      }
      var floor := Floor(up.value);
      var top := TopGap(length);
      if top < length || top - length < floor {
        return None;
      }
      AlignedSub(top, length);
      return Some(top - length);
    }

    /** The loop of `find_free`: where the highest gap of that length ends (with less than
        `length` below it if there is none). */
    method TopGap(length: nat) returns (top: nat)
      requires Sorted(regions, 0, USER_END) && 0 < length
      ensures top <= mmapTop && HighestBelow(regions, mmapTop, length, top)
      ensures length <= top ==> FreeRange(regions, top - length, length)
      ensures Aligned(mmapTop) ==> Aligned(top)
    {
      top := mmapTop;
      var i := |regions|;
      while i > 0
        invariant 0 <= i <= |regions| && top <= mmapTop
        invariant forall j :: i <= j < |regions| ==> regions[j].start >= top
        invariant HighestBelow(regions, mmapTop, length, top)
        invariant Aligned(mmapTop) ==> Aligned(top)
      {
        i := i - 1;
        var r := regions[i];
        SortedAt(regions, 0, USER_END, i);
        if r.start >= top {
          continue;
        }
        if r.end <= top && top - r.end >= length {
          GapIsFree(regions, i, top, top - length, length);
          return;
        }
        LowerTop(regions, i, mmapTop, length, top);
        top := Min(top, r.start);
      }
      if length <= top {
        NothingBelow(regions, top, top - length, length);
      }
    }

    /** `remove`. */
    method Remove(start: nat, end: nat) returns (removed: seq<Span>)
      requires Sorted(regions, 0, USER_END) && Aligned(start) && Aligned(end) && start < end
      modifies this`regions
      ensures Sorted(regions, 0, USER_END) && GoneFrom(old(regions), regions, start, end)
      ensures AlignedSpans(removed) && ExactSpans(old(regions), removed, start, end)
    {
      RemoveFacts(regions, start, end);
      var kept;
      kept, removed := Carve(regions, start, end);
      regions := kept;
    }

    /** Whether `mmap` accepts `start` for that many bytes. */
    predicate Usable(start: nat, length: nat)
    {
      UsableBelow(mmapTop, start, length)
    }

    /** `place`: the common part of `mmap` and `mmap_device`. A failed call changes nothing;
        the insertion after a removal never fails. */
    method Place(hint: nat, length: nat, protection: Protection, fixed: bool,
                 kind: Kind) returns (r: Result<MmapChange>)
      requires Valid() && Sane(protection) && !kind.Heap?
      modifies this`regions
      ensures Valid()
      ensures r.Err? ==> regions == old(regions)
      ensures r.Ok? ==> 0 < length && PageUp(length).Some?
      ensures r.Ok? ==> Placement(r.value, hint, PageUp(length).value, protection, fixed, kind, old(regions), regions)
      ensures length == 0 || (fixed && !Aligned(hint) && PageUp(length).Some?) <==> r == Err(EINVAL)
      ensures r.Ok? <==> 0 < length && HasPlace(old(regions), brk, mmapTop, hint, length, fixed)
      ensures r.Err? ==> r.error in {EINVAL, ENOMEM}
    {
      if length == 0 {
        return Err(EINVAL);
      }
      var up := PageUp(length);
      if up.None? {
        return Err(ENOMEM);
      }
      if fixed && !Aligned(hint) {
        return Err(EINVAL);
      }
      var address, replaced := MakeRoom(hint, up.value, fixed);
      if address.None? {
        return Err(ENOMEM);
      }
      var a := address.value;
      var region := Region(a, a + up.value, protection, kind);
      ghost var before := regions;
      var ok := Insert(region);
      OverlayFacts(old(regions), before, regions, region);
      HeapUnderOverlay(old(regions), regions, region, brkStart, brk);
      r := Ok(MmapChange(a, replaced, Span(a, a + up.value, protection)));
    }

    /** The address of a mapping, with nothing left in its way. */
    method MakeRoom(hint: nat, length: nat, fixed: bool) returns (address: Option<nat>, replaced: seq<Span>)
      requires Valid() && 0 < length && Aligned(length)
      modifies this`regions
      ensures Sorted(regions, 0, USER_END)
      ensures address.None? ==> regions == old(regions)
      ensures address.None? ==> if fixed then !Usable(hint, length)
                else !HintServes(regions, mmapTop, hint, length) && !SomeFit(regions, brk, mmapTop, length)
      ensures address.Some? ==> Chosen(old(regions), brk, mmapTop, hint, length, fixed, address.value)
      ensures address.Some? ==> Usable(address.value, length) && Aligned(address.value + length)
      ensures address.Some? && !fixed ==> FreeRange(old(regions), address.value, length) && regions == old(regions)
      ensures address.Some? && fixed ==> GoneFrom(old(regions), regions, address.value, address.value + length)
      ensures address.Some? ==>
        AlignedSpans(replaced) && ExactSpans(old(regions), replaced, address.value, address.value + length)
    {
      replaced := [];
      if fixed {
        if !Usable(hint, length) {
          return None, [];
        }
        AlignedAdd(hint, length);
        replaced := Remove(hint, hint + length);
        return Some(hint), replaced;
      }
      address := Choose(hint, length);
      if address.Some? {
        AlignedAdd(address.value, length);
        UncoveredSpans(regions, address.value, length);
      }
    }

    /** Where a mapping that is not fixed goes: the hint if it is free, else the highest gap. */
    method Choose(hint: nat, length: nat) returns (address: Option<nat>)
      requires Valid() && 0 < length && Aligned(length)
      ensures address.None? ==> !HintServes(regions, mmapTop, hint, length) && !SomeFit(regions, brk, mmapTop, length)
      ensures address.Some? ==> Usable(address.value, length) && FreeRange(regions, address.value, length)
      ensures address.Some? ==> Chosen(regions, brk, mmapTop, hint, length, false, address.value)
    {
      OverlapIsCover(regions, 0, USER_END, hint, hint + length);
      if hint != 0 && Usable(hint, length) && !OverlapsAny(regions, hint, hint + length) {
        return Some(hint);
      }
      address := FindFree(length);
    }

    /** `munmap`. */
    method Munmap(start: nat, length: nat) returns (r: Result<seq<Span>>)
      requires Valid()
      modifies this`regions
      ensures Valid()
      ensures r.Err? ==> regions == old(regions) && r == Err(EINVAL)
      ensures r.Ok? <==> Aligned(start) && 0 < length && PageUp(length).Some? && start + PageUp(length).value <= U64_MAX
      ensures r.Ok? ==> GoneFrom(old(regions), regions, start, start + PageUp(length).value)
      ensures r.Ok? ==> AlignedSpans(r.value) && ExactSpans(old(regions), r.value, start, start + PageUp(length).value)
    {
      if !Aligned(start) || length == 0 {
        return Err(EINVAL);
      }
      var up := PageUp(length);
      if up.None? || CheckedAdd(start, up.value).None? {
        return Err(EINVAL);
      }
      AlignedAdd(start, up.value);
      var removed := Remove(start, start + up.value);
      HeapAfterRemoval(old(regions), regions, start, start + up.value, brkStart, brk);
      r := Ok(removed);
    }

    /** The scan of `mprotect`: is every address of the range covered? */
    method FullyMapped(start: nat, end: nat) returns (yes: bool)
      requires Sorted(regions, 0, USER_END) && start < end
      ensures yes <==> AllMapped(regions, start, end)
    {
      var cursor := start;
      var i := 0;
      while i < |regions| && cursor < end
        invariant 0 <= i <= |regions| && start <= cursor
        invariant forall j :: 0 <= j < i ==> regions[j].end <= cursor || end <= regions[j].start
        invariant forall a :: start <= a < cursor ==> At(regions, a).Some?
      {
        var r := regions[i];
        SortedAt(regions, 0, USER_END, i);
        if r.end <= cursor || r.start >= end {
          i := i + 1;
          continue;
        }
        if r.start > cursor {
          GapAt(regions, i, cursor, end);
          return false;
        }
        forall a | cursor <= a < r.end
          ensures At(regions, a).Some?
        {
          AtIndex(regions, 0, USER_END, i, a);
        }
        cursor := r.end;
        i := i + 1;
      }
      if cursor < end {
        AtNowhere(regions, cursor);
      }
      return cursor >= end;
    }

    /** `mprotect`: every address of the range gets the protection and keeps the rest. */
    method Mprotect(start: nat, length: nat, protection: Protection) returns (r: Result<seq<Span>>)
      requires Valid() && Sane(protection)
      modifies this`regions
      ensures Valid()
      ensures r.Err? ==> regions == old(regions)
      ensures r.Ok? ==> PageUp(length).Some? && AllMapped(old(regions), start, start + PageUp(length).value)
      ensures r.Ok? ==> ProtectedOver(old(regions), regions, start, start + PageUp(length).value, protection)
      ensures r.Ok? ==>
            AlignedSpans(r.value) && (forall i :: 0 <= i < |r.value| ==> r.value[i].protection == protection)
      ensures r.Ok? ==> ExactSpans(old(regions), r.value, start, start + PageUp(length).value)
      ensures r.Err? ==> r.error in {EINVAL, EACCES, ENOMEM}
      ensures r == Err(EINVAL) <==> !Aligned(start)
      ensures r == Err(EACCES) <==>
                && Aligned(start) && PageUp(length).Some? && start + PageUp(length).value <= U64_MAX
                && AllMapped(old(regions), start, start + PageUp(length).value)
                && protection.execute && AnyDevice(old(regions), start, start + PageUp(length).value)
      ensures r == Err(ENOMEM) <==>
                && Aligned(start)
                && (PageUp(length).Some? && start + PageUp(length).value <= U64_MAX ==>
                    !AllMapped(old(regions), start, start + PageUp(length).value))
    {
      if !Aligned(start) {
        return Err(EINVAL);
      }
      var up := PageUp(length);
      if up.None? || CheckedAdd(start, up.value).None? {
        return Err(ENOMEM);
      }
      var end := start + up.value;
      AlignedAdd(start, up.value);
      if start == end {
        return Ok([]);
      }
      var covered := FullyMapped(start, end);
      if !covered {
        return Err(ENOMEM);
      }
      InsideFacts(regions, start, end);
      var kinds := Inside(regions, start, end);
      DeviceInside(regions, start, end);
      if protection.execute && HasDevice(kinds) {
        return Err(EACCES);
      }
      var _ := Remove(start, end);
      var changed := Reprotect(old(regions), kinds, start, end, protection);
      HeapAfterProtect(old(regions), regions, start, end, protection, brkStart, brk);
      r := Ok(changed);
    }

    /** `set_brk`. The heap becomes the one read-write region from its start to the new
        break; a failed call changes nothing. */
    method SetBrk(address: nat) returns (r: Result<BrkChange>)
      requires Valid() && address <= U64_MAX
      modifies this`regions, this`brk
      ensures Valid()
      ensures r.Err? ==> regions == old(regions) && brk == old(brk) && r == Err(ENOMEM)
      ensures r.Ok? <==> CanSetBrk(old(regions), old(brk), address)
      ensures r.Ok? ==> brk == address
      ensures r.Ok? ==> HeapRebuilt(old(regions), regions, brkStart, PageUp(address).value)
      ensures r.Ok? ==> r.value == BrkEffect(PageUp(old(brk)).value, PageUp(address).value)
    {
      if address < brkStart {
        return Err(ENOMEM);
      }
      var oldUp, newUp := PageUp(brk), PageUp(address);
      if oldUp.None? || newUp.None? {
        return Err(ENOMEM);
      }
      var limit := Max(oldUp.value, newUp.value);
      if newUp.value > mmapTop || Blocked(regions, brkStart, limit) {
        return Err(ENOMEM);
      }
      BlockedFacts(regions, brkStart, limit);
      NonHeapFacts(regions);
      ghost var before := regions;
      regions := NonHeap(regions);
      ghost var mid := regions;
      if newUp.value > brkStart {
        HeapFits(before, mid, brkStart, newUp.value, limit);
        var ok := Insert(Region(brkStart, newUp.value, READ_WRITE, Heap));
      }
      RebuiltFacts(before, mid, regions, brkStart, newUp.value);
      brk := address;
      RebuiltWithin(before, regions, brkStart, address, newUp.value);
      r := Ok(BrkEffect(oldUp.value, newUp.value));
    }

    /** When the break may move to `address`. */
    ghost predicate CanSetBrk(rs: seq<Region>, brk: nat, address: nat) {
      && brkStart <= address && PageUp(brk).Some? && PageUp(address).Some? && PageUp(address).value <= mmapTop
      && !Blocked(rs, brkStart, Max(PageUp(brk).value, PageUp(address).value))
    }

    /** The second half of `mprotect`: put the pieces back with the new protection. No
        insertion fails. */
    method Reprotect(ghost before: seq<Region>, kinds: seq<Region>, start: nat, end: nat, protection: Protection)
      returns (changed: seq<Span>)
      requires Sorted(before, 0, USER_END) && Sorted(regions, 0, USER_END) && start < end
      requires Aligned(start) && Aligned(end) && Sane(protection)
      requires GoneFrom(before, regions, start, end)
      requires Sorted(kinds, 0, USER_END) && SameInside(before, kinds, start, end)
      requires AllReach(kinds, start, end)
      modifies this`regions
      ensures Sorted(regions, 0, USER_END)
      ensures ProtectedOver(before, regions, start, end, protection)
      ensures AlignedSpans(changed) && (forall i :: 0 <= i < |changed| ==> changed[i].protection == protection)
      ensures ExactSpans(before, changed, start, end)
    {
      changed := [];
      var k := 0;
      while k < |kinds|
        invariant 0 <= k <= |kinds| && Sorted(regions, 0, USER_END)
        invariant PartlyProtected(before, regions, kinds[..k], start, end, protection)
        invariant AlignedSpans(changed) && forall i :: 0 <= i < |changed| ==> changed[i].protection == protection
        invariant ExactSpans(kinds[..k], changed, start, end)
      {
        var region := kinds[k];
        SortedAt(kinds, 0, USER_END, k);
        var piece := Piece(region, Max(region.start, start), Min(region.end, end)).(protection := protection);
        ghost var mid := regions;
        PieceFits(before, mid, kinds, k, start, end, protection, piece);
        var ok := Insert(piece);
        PieceDone(before, mid, regions, kinds, k, start, end, protection, piece, changed);
        changed := changed + [Span(piece.start, piece.end, protection)];
        k := k + 1;
      }
      assert kinds[..k] == kinds;
    }

    /** What a successful placement is. */
    ghost predicate Placement(c: MmapChange, hint: nat, length: nat, protection: Protection, fixed: bool, kind: Kind,
                              before: seq<Region>, after: seq<Region>)
      reads this
    {
      && c.added == Span(c.address, c.address + length, protection)
      && Aligned(c.address) && Aligned(c.address + length) && MIN_ADDRESS <= c.address && c.address + length <= mmapTop
      && (!fixed ==> FreeRange(before, c.address, length))
      && Chosen(before, brk, mmapTop, hint, length, fixed, c.address)
      && AlignedSpans(c.replaced) && ExactSpans(before, c.replaced, c.address, c.address + length)
      && PlacedOver(before, after, Region(c.address, c.address + length, protection, kind))
    }

    /** The loop of `remove`: what stays and what goes, in address order. */
    static method Carve(rs: seq<Region>, start: nat, end: nat) returns (kept: seq<Region>, removed: seq<Span>)
      ensures kept == Without(rs, start, end) && removed == RemovedSpans(rs, start, end)
    {
      kept, removed := [], [];
      var i := 0;
      while i < |rs|
        invariant 0 <= i <= |rs|
        invariant kept + Without(rs[i..], start, end) == Without(rs, start, end)
        invariant removed + RemovedSpans(rs[i..], start, end) == RemovedSpans(rs, start, end)
      {
        var k, g := CarveOne(rs[i], start, end);
        CarveStep(rs, i, start, end, kept, removed);
        kept, removed := kept + k, removed + g;
        i := i + 1;
      }
    }

    static method CarveOne(r: Region, start: nat, end: nat) returns (kept: seq<Region>, removed: seq<Span>)
      ensures kept == Cut(r, start, end) && removed == CutSpan(r, start, end)
    {
      kept, removed := [], [];
      if r.end <= start || end <= r.start {
        return [r], [];
      }
      if r.start < start {
        kept := kept + [Piece(r, r.start, start)];
      }
      removed := removed + [Span(Max(r.start, start), Min(r.end, end), r.protection)];
      if end < r.end {
        kept := kept + [Piece(r, end, r.end)];
      }
    }
  }

  ghost predicate IsHeap(rs: seq<Region>, a: nat) {
    At(rs, a).Some? && At(rs, a).value.kind.Heap?
  }

  /** Heap regions lie between the heap's start and the page-rounded break. */
  ghost predicate HeapWithin(rs: seq<Region>, brkStart: nat, brk: nat) {
    forall a: nat :: IsHeap(rs, a) ==> brkStart <= a && PageUp(brk).Some? && a < PageUp(brk).value
  }

  /** `rs'` is `rs` with `r` laid over it. */
  ghost predicate PlacedOver(rs: seq<Region>, rs': seq<Region>, r: Region) {
    forall a: nat :: At(rs', a) == if Holds(r, a) then Some(BackingAt(r, a)) else At(rs, a)
  }

  lemma InsertedFacts(rs: seq<Region>, r: Region)
    requires Sorted(rs, 0, USER_END) && r.start < r.end && !OverlapsAny(rs, r.start, r.end)
    ensures PlacedOver(rs, Inserted(rs, r), r)
  {
    forall a: nat
      ensures At(Inserted(rs, r), a) == if Holds(r, a) then Some(BackingAt(r, a)) else At(rs, a)
    {
      InsertedAt(rs, 0, USER_END, r, a);
    }
  }

  /** `rs'` is `rs` with nothing left in `start..end`. */
  ghost predicate GoneFrom(rs: seq<Region>, rs': seq<Region>, start: nat, end: nat) {
    forall a: nat :: At(rs', a) == if start <= a < end then None else At(rs, a)
  }

  /** The spans hold exactly the addresses of `start..end` that were covered. */
  ghost predicate ExactSpans(rs: seq<Region>, spans: seq<Span>, start: nat, end: nat) {
    forall a: nat :: InSpans(spans, a) <==> start <= a < end && At(rs, a).Some?
  }

  lemma RemoveFacts(rs: seq<Region>, start: nat, end: nat)
    requires Sorted(rs, 0, USER_END) && Aligned(start) && Aligned(end) && start < end
    ensures Sorted(Without(rs, start, end), 0, USER_END) && GoneFrom(rs, Without(rs, start, end), start, end)
    ensures AlignedSpans(RemovedSpans(rs, start, end)) && ExactSpans(rs, RemovedSpans(rs, start, end), start, end)
  {
    WithoutSorted(rs, 0, USER_END, start, end);
    RemovedAligned(rs, 0, USER_END, start, end);
    forall a: nat
      ensures At(Without(rs, start, end), a) == if start <= a < end then None else At(rs, a)
      ensures InSpans(RemovedSpans(rs, start, end), a) <==> start <= a < end && At(rs, a).Some?
    {
      WithoutAt(rs, 0, USER_END, start, end, a);
      RemovedExactly(rs, 0, USER_END, start, end, a);
    }
  }

  // ---- the free-range search -------------------------------------------------------------

  /** Every free range of that length below `limit` ends at or below `top`. */
  ghost predicate HighestBelow(rs: seq<Region>, limit: nat, length: nat, top: nat) {
    forall s: nat :: FreeRange(rs, s, length) && s + length <= limit ==> s + length <= top
  }

  lemma GapIsFree(rs: seq<Region>, i: nat, top: nat, start: nat, length: nat)
    requires Sorted(rs, 0, USER_END) && i < |rs| && rs[i].end <= start && start + length == top && 0 < length
    requires forall j :: i < j < |rs| ==> rs[j].start >= top
    ensures FreeRange(rs, start, length)
  {
    OverlapIsCover(rs, 0, USER_END, start, top);
    forall j | 0 <= j < |rs|
      ensures !(start < rs[j].end && rs[j].start < top)
    {
      if j < i {
        SortedPair(rs, 0, USER_END, j, i);
        SortedAt(rs, 0, USER_END, i);
      }
    }
  }

  lemma NothingBelow(rs: seq<Region>, top: nat, start: nat, length: nat)
    requires Sorted(rs, 0, USER_END) && start + length == top && 0 < length
    requires forall j :: 0 <= j < |rs| ==> rs[j].start >= top
    ensures FreeRange(rs, start, length)
  {
    OverlapIsCover(rs, 0, USER_END, start, top);
  }

  lemma LowerTop(rs: seq<Region>, i: nat, limit: nat, length: nat, top: nat)
    requires Sorted(rs, 0, USER_END) && i < |rs| && rs[i].start < top && 0 < length
    requires HighestBelow(rs, limit, length, top)
    requires !(rs[i].end <= top && top - rs[i].end >= length)
    ensures HighestBelow(rs, limit, length, rs[i].start)
  {
    SortedAt(rs, 0, USER_END, i);
    forall s: nat | FreeRange(rs, s, length) && s + length <= limit
      ensures s + length <= rs[i].start
    {
      OverlapIsCover(rs, 0, USER_END, s, s + length);
      assert !(s < rs[i].end && rs[i].start < s + length);
    }
  }

  lemma CarveStep(rs: seq<Region>, i: nat, start: nat, end: nat, kept: seq<Region>, removed: seq<Span>)
    requires i < |rs|
    ensures (kept + Cut(rs[i], start, end)) + Without(rs[i + 1..], start, end) == kept + Without(rs[i..], start, end)
    ensures (removed + CutSpan(rs[i], start, end)) + RemovedSpans(rs[i + 1..], start, end) ==
            removed + RemovedSpans(rs[i..], start, end)
  {
    assert rs[i..][1..] == rs[i + 1..];
    assert Without(rs[i..], start, end) == Cut(rs[i], start, end) + Without(rs[i + 1..], start, end);
    assert RemovedSpans(rs[i..], start, end) == CutSpan(rs[i], start, end) + RemovedSpans(rs[i + 1..], start, end);
  }

  // ---- helpers of the operations -----------------------------------------------------------

  lemma AlignedAdd(a: nat, b: nat)
    ensures Aligned(a) && Aligned(b) ==> Aligned(a + b)
  {
  }

  /** Nothing is replaced where nothing was. */
  lemma UncoveredSpans(rs: seq<Region>, start: nat, length: nat)
    requires FreeRange(rs, start, length)
    ensures ExactSpans(rs, [], start, start + length)
  {
    forall a: nat
      ensures !(start <= a < start + length && At(rs, a).Some?)
    {
    }
  }

  /** Removing a range and inserting a region in it lays the region over the list. */
  lemma OverlayFacts(rs: seq<Region>, mid: seq<Region>, rs': seq<Region>, r: Region)
    requires (mid == rs || GoneFrom(rs, mid, r.start, r.end)) && PlacedOver(mid, rs', r)
    ensures PlacedOver(rs, rs', r)
  {
  }

  lemma HeapUnderOverlay(rs: seq<Region>, rs': seq<Region>, r: Region, brkStart: nat, brk: nat)
    requires HeapWithin(rs, brkStart, brk) && PlacedOver(rs, rs', r) && !r.kind.Heap?
    ensures HeapWithin(rs', brkStart, brk)
  {
    forall a: nat | IsHeap(rs', a)
      ensures IsHeap(rs, a)
    {
    }
  }

  lemma HeapAfterRemoval(rs: seq<Region>, rs': seq<Region>, start: nat, end: nat, brkStart: nat, brk: nat)
    requires HeapWithin(rs, brkStart, brk) && GoneFrom(rs, rs', start, end)
    ensures HeapWithin(rs', brkStart, brk)
  {
    forall a: nat | IsHeap(rs', a)
      ensures IsHeap(rs, a)
    {
    }
  }

  // ---- mprotect ------------------------------------------------------------------------

  ghost predicate AllMapped(rs: seq<Region>, start: nat, end: nat) {
    forall a: nat :: start <= a < end ==> At(rs, a).Some?
  }

  predicate HasDevice(rs: seq<Region>) {
    exists i :: 0 <= i < |rs| && rs[i].kind.Device?
  }

  ghost predicate AnyDevice(rs: seq<Region>, start: nat, end: nat) {
    exists a: nat :: start <= a < end && At(rs, a).Some? && At(rs, a).value.kind.Device?
  }

  function Reprotected(b: Option<Backing>, p: Protection): Option<Backing> {
    if b.Some? then Some(b.value.(protection := p)) else None
  }

  /** `rs'` is `rs` with another protection on `start..end`. */
  ghost predicate ProtectedOver(rs: seq<Region>, rs': seq<Region>, start: nat, end: nat, p: Protection) {
    forall a: nat :: At(rs', a) == if start <= a < end then Reprotected(At(rs, a), p) else At(rs, a)
  }

  /** ... so far only where `done` reaches, and nothing elsewhere in the range. */
  ghost predicate PartlyProtected(rs: seq<Region>, rs': seq<Region>, done: seq<Region>, start: nat, end: nat,
                                  p: Protection) {
    forall a: nat :: At(rs', a) == if start <= a < end then Reprotected(At(done, a), p) else At(rs, a)
  }

  ghost predicate SameInside(rs: seq<Region>, kinds: seq<Region>, start: nat, end: nat) {
    forall a: nat :: start <= a < end ==> At(kinds, a) == At(rs, a)
  }

  lemma GapAt(rs: seq<Region>, i: nat, cursor: nat, end: nat)
    requires Sorted(rs, 0, USER_END) && i < |rs| && cursor < rs[i].start && cursor < end
    requires forall j :: 0 <= j < i ==> rs[j].end <= cursor || end <= rs[j].start
    ensures At(rs, cursor) == None
  {
    forall j | 0 <= j < |rs|
      ensures !Holds(rs[j], cursor)
    {
      if j > i {
        SortedPair(rs, 0, USER_END, i, j);
        SortedAt(rs, 0, USER_END, i);
      }
    }
    AtNowhere(rs, cursor);
  }

  /** The regions that reach into `start..end`. */
  function Inside(rs: seq<Region>, start: nat, end: nat): seq<Region> {
    if rs == [] then []
    else (if rs[0].start < end && start < rs[0].end then [rs[0]] else []) + Inside(rs[1..], start, end)
  }

  lemma {:induction false} InsideSorted(rs: seq<Region>, lo: nat, hi: nat, start: nat, end: nat)
    requires Sorted(rs, lo, hi)
    ensures Sorted(Inside(rs, start, end), lo, hi)
  {
    if rs != [] {
      InsideSorted(rs[1..], rs[0].end, hi, start, end);
      var tail := Inside(rs[1..], start, end);
      if rs[0].start < end && start < rs[0].end {
        assert ([rs[0]] + tail)[1..] == tail;
      } else {
        assert Inside(rs, start, end) == tail;
        SortedFromBelow(tail, rs[0].end, lo, hi);
      }
    }
  }

  ghost predicate AllReach(rs: seq<Region>, start: nat, end: nat) {
    forall j :: 0 <= j < |rs| ==> start < rs[j].end && rs[j].start < end
  }

  lemma {:induction false} InsideReaches(rs: seq<Region>, start: nat, end: nat)
    ensures AllReach(Inside(rs, start, end), start, end)
  {
    if rs != [] {
      InsideReaches(rs[1..], start, end);
    }
  }

  lemma {:induction false} InsideAt(rs: seq<Region>, start: nat, end: nat, a: nat)
    requires start <= a < end
    ensures At(Inside(rs, start, end), a) == At(rs, a)
  {
    if rs != [] {
      InsideAt(rs[1..], start, end, a);
      if rs[0].start < end && start < rs[0].end {
        assert ([rs[0]] + Inside(rs[1..], start, end))[1..] == Inside(rs[1..], start, end);
      } else {
        assert Inside(rs, start, end) == Inside(rs[1..], start, end);
      }
    }
  }

  lemma InsideFacts(rs: seq<Region>, start: nat, end: nat)
    requires Sorted(rs, 0, USER_END)
    ensures Sorted(Inside(rs, start, end), 0, USER_END) && SameInside(rs, Inside(rs, start, end), start, end)
    ensures AllReach(Inside(rs, start, end), start, end)
  {
    InsideReaches(rs, start, end);
    InsideSorted(rs, 0, USER_END, start, end);
    forall a: nat | start <= a < end
      ensures At(Inside(rs, start, end), a) == At(rs, a)
    {
      InsideAt(rs, start, end, a);
    }
  }

  lemma DeviceInside(rs: seq<Region>, start: nat, end: nat)
    requires Sorted(rs, 0, USER_END) && start < end
    ensures HasDevice(Inside(rs, start, end)) <==> AnyDevice(rs, start, end)
  {
    var kinds := Inside(rs, start, end);
    InsideFacts(rs, start, end);
    if i :| 0 <= i < |kinds| && kinds[i].kind.Device? {
      var a := Max(kinds[i].start, start);
      SortedAt(kinds, 0, USER_END, i);
      AtIndex(kinds, 0, USER_END, i, a);
      assert start <= a < end && At(rs, a) == At(kinds, a);
    }
    if a: nat :| start <= a < end && At(rs, a).Some? && At(rs, a).value.kind.Device? {
      assert At(kinds, a) == At(rs, a);
      if forall i :: 0 <= i < |kinds| ==> !Holds(kinds[i], a) {
        AtNowhere(kinds, a);
        assert false;
      } else {
        var i :| 0 <= i < |kinds| && Holds(kinds[i], a);
        AtIndex(kinds, 0, USER_END, i, a);
        assert At(kinds, a) == At(rs, a);
        assert kinds[i].kind.Device?;
      }
    }
  }

  lemma PieceFits(before: seq<Region>, mid: seq<Region>, kinds: seq<Region>, k: nat, start: nat, end: nat,
                  p: Protection, piece: Region)
    requires Sorted(kinds, 0, USER_END) && k < |kinds| && start < kinds[k].end && kinds[k].start < end
    requires PartlyProtected(before, mid, kinds[..k], start, end, p)
    requires piece.start == Max(kinds[k].start, start) && piece.end == Min(kinds[k].end, end)
    ensures !Covered(mid, piece.start, piece.end)
  {
    forall a: nat | piece.start <= a < piece.end
      ensures At(mid, a) == None
    {
      EarlierMiss(kinds, k, a);
    }
  }

  lemma EarlierMiss(kinds: seq<Region>, k: nat, a: nat)
    requires Sorted(kinds, 0, USER_END) && k < |kinds| && Holds(kinds[k], a)
    ensures At(kinds[..k], a) == None
  {
    forall j | 0 <= j < k
      ensures !Holds(kinds[..k][j], a)
    {
      SortedPair(kinds, 0, USER_END, j, k);
    }
    AtNowhere(kinds[..k], a);
  }

  lemma PieceDone(before: seq<Region>, mid: seq<Region>, after: seq<Region>, kinds: seq<Region>, k: nat, start: nat,
                  end: nat,
                  p: Protection, piece: Region, changed: seq<Span>)
    requires Sorted(kinds, 0, USER_END) && k < |kinds| && start < kinds[k].end && kinds[k].start < end
    requires PartlyProtected(before, mid, kinds[..k], start, end, p) && PlacedOver(mid, after, piece)
    requires piece == Piece(kinds[k], Max(kinds[k].start, start), Min(kinds[k].end, end)).(protection := p)
    requires ExactSpans(kinds[..k], changed, start, end)
    ensures PartlyProtected(before, after, kinds[..k + 1], start, end, p)
    ensures ExactSpans(kinds[..k + 1], changed + [Span(piece.start, piece.end, p)], start, end)
  {
    assert kinds[..k + 1] == kinds[..k] + [kinds[k]];
    forall a: nat
      ensures At(after, a) == if start <= a < end then Reprotected(At(kinds[..k + 1], a), p) else At(before, a)
      ensures InSpans(changed + [Span(piece.start, piece.end, p)], a) <==>
            start <= a < end && At(kinds[..k + 1], a).Some?
    {
      AtConcat(kinds[..k], [kinds[k]], a);
      InSpansConcat(changed, [Span(piece.start, piece.end, p)], a);
      OneSpan(Span(piece.start, piece.end, p), a);
      if Holds(kinds[k], a) {
        EarlierMiss(kinds, k, a);
      }
    }
  }

  lemma OneSpan(s: Span, a: nat)
    ensures InSpans([s], a) <==> s.start <= a < s.end
  {
    assert [s][0] == s;
  }

  lemma HeapAfterProtect(rs: seq<Region>, rs': seq<Region>, start: nat, end: nat, p: Protection, brkStart: nat,
                         brk: nat)
    requires HeapWithin(rs, brkStart, brk) && ProtectedOver(rs, rs', start, end, p)
    ensures HeapWithin(rs', brkStart, brk)
  {
    forall a: nat | IsHeap(rs', a)
      ensures IsHeap(rs, a)
    {
    }
  }

  // ---- brk -------------------------------------------------------------------------------

  /** The pages a moved break asks the kernel to map or unmap. */
  function BrkEffect(oldEnd: nat, newEnd: nat): BrkChange {
    if newEnd > oldEnd then Map(Span(oldEnd, newEnd, READ_WRITE))
    else if newEnd < oldEnd then Unmap(Span(newEnd, oldEnd, READ_WRITE))
    else Unchanged
  }

  /** Another mapping lies in the heap's way. */
  predicate Blocked(rs: seq<Region>, brkStart: nat, limit: nat) {
    exists i :: 0 <= i < |rs| && !rs[i].kind.Heap? && rs[i].start < limit && brkStart < rs[i].end
  }

  function NonHeap(rs: seq<Region>): seq<Region> {
    if rs == [] then [] else (if rs[0].kind.Heap? then [] else [rs[0]]) + NonHeap(rs[1..])
  }

  /** `rs'` has the heap rebuilt as one read-write region `start..end`, the rest as in `rs`. */
  ghost predicate HeapRebuilt(rs: seq<Region>, rs': seq<Region>, start: nat, end: nat) {
    forall a: nat :: At(rs', a) == if start <= a < end then Some(Backing(READ_WRITE, Heap))
                                   else if IsHeap(rs, a) then None else At(rs, a)
  }

  lemma BlockedFacts(rs: seq<Region>, brkStart: nat, limit: nat)
    requires Sorted(rs, 0, USER_END) && brkStart <= limit
    ensures brkStart < limit ==>
      (Blocked(rs, brkStart, limit) <==> exists a: nat :: brkStart <= a < limit && At(rs, a).Some? && !IsHeap(rs, a))
  {
    if brkStart < limit {
      if i :| 0 <= i < |rs| && !rs[i].kind.Heap? && rs[i].start < limit && brkStart < rs[i].end {
        var a := Max(rs[i].start, brkStart);
        SortedAt(rs, 0, USER_END, i);
        AtIndex(rs, 0, USER_END, i, a);
        assert brkStart <= a < limit && At(rs, a).Some? && !IsHeap(rs, a);
      }
      if a: nat :| brkStart <= a < limit && At(rs, a).Some? && !IsHeap(rs, a) {
        if forall i :: 0 <= i < |rs| ==> !Holds(rs[i], a) {
          AtNowhere(rs, a);
          assert false;
        } else {
          var i :| 0 <= i < |rs| && Holds(rs[i], a);
          AtIndex(rs, 0, USER_END, i, a);
          assert !rs[i].kind.Heap?;
        }
      }
    }
  }

  lemma {:induction false} NonHeapAt(rs: seq<Region>, lo: nat, hi: nat, a: nat)
    requires Sorted(rs, lo, hi)
    ensures Sorted(NonHeap(rs), lo, hi)
    ensures At(NonHeap(rs), a) == if IsHeap(rs, a) then None else At(rs, a)
  {
    if rs != [] {
      var tail := NonHeap(rs[1..]);
      NonHeapAt(rs[1..], rs[0].end, hi, a);
      AtBelow(rs[1..], rs[0].end, hi, a);
      if rs[0].kind.Heap? {
        assert NonHeap(rs) == tail;
        SortedFromBelow(tail, rs[0].end, lo, hi);
      } else {
        assert NonHeap(rs)[1..] == tail;
      }
    }
  }

  lemma NonHeapFacts(rs: seq<Region>)
    requires Sorted(rs, 0, USER_END)
    ensures Sorted(NonHeap(rs), 0, USER_END)
    ensures forall a: nat :: At(NonHeap(rs), a) == if IsHeap(rs, a) then None else At(rs, a)
  {
    NonHeapAt(rs, 0, USER_END, 0);
    forall a: nat
      ensures At(NonHeap(rs), a) == if IsHeap(rs, a) then None else At(rs, a)
    {
      NonHeapAt(rs, 0, USER_END, a);
    }
  }

  lemma HeapFits(rs: seq<Region>, mid: seq<Region>, brkStart: nat, newEnd: nat, limit: nat)
    requires forall a: nat :: At(mid, a) == if IsHeap(rs, a) then None else At(rs, a)
    requires newEnd <= limit
    requires forall a: nat :: brkStart <= a < limit && At(rs, a).Some? ==> IsHeap(rs, a)
    ensures !Covered(mid, brkStart, newEnd)
  {
  }

  lemma RebuiltFacts(rs: seq<Region>, mid: seq<Region>, rs': seq<Region>, start: nat, end: nat)
    requires forall a: nat :: At(mid, a) == if IsHeap(rs, a) then None else At(rs, a)
    requires if start < end then PlacedOver(mid, rs', Region(start, end, READ_WRITE, Heap)) else rs' == mid
    ensures HeapRebuilt(rs, rs', start, end)
  {
    forall a: nat
      ensures At(rs', a) == if start <= a < end then Some(Backing(READ_WRITE, Heap))
                            else if IsHeap(rs, a) then None else At(rs, a)
    {
      assert start < end ==> (Holds(Region(start, end, READ_WRITE, Heap), a) <==> start <= a < end);
    }
  }

  lemma RebuiltWithin(rs: seq<Region>, rs': seq<Region>, start: nat, brk: nat, end: nat)
    requires HeapRebuilt(rs, rs', start, end) && PageUp(brk) == Some(end)
    ensures HeapWithin(rs', start, brk)
  {
    forall a: nat | IsHeap(rs', a)
      ensures start <= a < end
    {
      assert At(rs', a).Some?;
    }
  }
}
