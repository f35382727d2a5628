/** The kernel's static heap: a sorted free list with merging, lists of fixed-size small blocks
    carved from it, and the live blocks, all inside one array of memory.

    `Tiles` says that at every address of the heap exactly one of these holds the byte, so no
    two blocks overlap and none is lost.
  */
module StaticHeap {
  import opened Outcomes
  import opened Dyadic
  import opened HeapRegions

  const CLASSES: nat := 9
  /** The smallest class is `2^CLASS_ORDER` bytes; the largest, class 8, a page. */
  const CLASS_ORDER: nat := 4
  const PAGE_ORDER: nat := 12
  /** A refill carves `2^REFILL_ORDER` blocks, or fewer if no region is large enough. */
  const REFILL_ORDER: nat := 5

  /** What the first bytes at an address hold: a free region's node, a small block's link to the
      next (0 for none), or an owner's data. */
  datatype Cell = Node(size: nat, next: Option<nat>) | Link(link: nat) | Data

  /** Alignment `2^order`. */
  datatype Layout = Layout(size: nat, order: nat)

  datatype Block = Block(addr: nat, layout: Layout)

  function Max(a: nat, b: nat): nat {
    if a >= b then a else b
  }

  function ClassSize(c: nat): nat {
    Pow2(CLASS_ORDER + c)
  }

  /** The first class of at least `required` bytes. */
  function FirstClass(required: nat, c: nat): (r: Option<nat>)
    ensures r.Some? ==> r.value < CLASSES && ClassSize(r.value) >= required
    decreases CLASSES - c
  {
    if c >= CLASSES then None else if ClassSize(c) >= required then Some(c) else FirstClass(required, c + 1)
  }

  function SmallClass(l: Layout): Option<nat> {
    FirstClass(Max(l.size, Pow2(l.order)), 0)
  }

  predicate TooSmall(c: nat, required: nat) {
    ClassSize(c) < required
  }

  /** None of the classes from `c` up to `d` is large enough. */
  ghost predicate AllTooSmall(c: nat, d: nat, required: nat) {
    forall k :: c <= k < d ==> TooSmall(k, required)
  }

  lemma {:induction false} FirstClassIs(required: nat, c: nat, r: Option<nat>)
    requires r == FirstClass(required, c)
    ensures r.None? <==> AllTooSmall(c, CLASSES, required)
    ensures r.Some? ==> c <= r.value && AllTooSmall(c, r.value, required)
    decreases CLASSES - c
  {
    if c < CLASSES && TooSmall(c, required) {
      FirstClassIs(required, c + 1, r);
    } else if c < CLASSES {
      assert !TooSmall(c, required);
    }
  }

  /** An allocation is small exactly if it and its alignment fit a class; it gets the smallest such. */
  lemma SmallestClass(l: Layout, c: nat)
    requires c < CLASSES
    ensures SmallClass(l).Some? && SmallClass(l).value <= c <==> l.size <= ClassSize(c) && Pow2(l.order) <= ClassSize(c)
  {
    var (required, r) := (Max(l.size, Pow2(l.order)), SmallClass(l));
    FirstClassIs(required, 0, r);
    if r.Some? && r.value <= c {
      ClassesGrow(r.value, c);
    } else {
      assert TooSmall(c, required);
    }
  }

  lemma {:induction false} ClassesGrow(c: nat, d: nat)
    requires c <= d
    ensures ClassSize(c) <= ClassSize(d)
    decreases d
  {
    if c < d {
      ClassesGrow(c, d - 1);
    }
  }

  /** Size and alignment of a block from the free list. */
  function SizeAlign(l: Layout): (r: (nat, nat))
    ensures r.1 >= l.order && r.1 >= NODE_ALIGN
  {
    var order := Max(l.order, NODE_ALIGN);
    var padded := AlignUp(l.size, order);
    if padded > Pow2(PAGE_ORDER) then (AlignUp(padded, PAGE_ORDER), Max(order, PAGE_ORDER)) else (Max(padded, NODE),
        order)
  }

  /** Less than one step of its alignment is wasted. */
  lemma SizeIsTight(l: Layout)
    ensures SizeAlign(l).0 < Max(l.size, NODE) + Pow2(SizeAlign(l).1)
    ensures SizeAlign(l).1 == if AlignUp(l.size, Max(l.order, NODE_ALIGN)) > Pow2(PAGE_ORDER)
                              then Max(Max(l.order, NODE_ALIGN), PAGE_ORDER) else Max(l.order, NODE_ALIGN)
  {
    var order := Max(l.order, NODE_ALIGN);
    var padded := AlignUp(l.size, order);
    AlignUpTight(l.size, order);
    if padded > Pow2(PAGE_ORDER) {
      if order >= PAGE_ORDER {
        AlignUpIs(l.size, order, 0);
        AlignedLower(padded, PAGE_ORDER, order);
        AlignUpIs(padded, PAGE_ORDER, padded);
      } else {
        AlignedTwice(l.size, order, PAGE_ORDER);
        AlignUpTight(l.size, PAGE_ORDER);
      }
    }
  }

  lemma AlignUpTight(x: nat, o: nat)
    ensures AlignUp(x, o) < x + Pow2(o)
  {
    DownBounds(x + Pow2(o) - 1, o);
  }

  /** Aligning to the smaller first makes no difference. */
  lemma AlignedTwice(x: nat, o: nat, big: nat)
    requires o <= big
    ensures AlignUp(AlignUp(x, o), big) == AlignUp(x, big)
  {
    var once := AlignUp(x, big);
    AlignUpIs(x, big, 0);
    AlignUpIs(AlignUp(x, o), big, once);
    AlignedLower(once, o, big);
    AlignUpIs(x, o, once);
    AlignUpIs(x, big, AlignUp(AlignUp(x, o), big));
  }

  /** The bytes an allocation takes. */
  function Taken(l: Layout): nat {
    if SmallClass(l).Some? then ClassSize(SmallClass(l).value) else SizeAlign(l).0
  }

  lemma TakenFits(l: Layout)
    ensures Taken(l) >= l.size && SizeAlign(l).0 >= NODE && AlignedAt(SizeAlign(l).0, NODE_ALIGN)
  {
    var order := Max(l.order, NODE_ALIGN);
    var padded := AlignUp(l.size, order);
    AlignUpIs(l.size, order, 0);
    AlignedLower(padded, NODE_ALIGN, order);
    AlignUpIs(padded, PAGE_ORDER, 0);
    AlignedLower(AlignUp(padded, PAGE_ORDER), NODE_ALIGN, PAGE_ORDER);
    PowAligned(4, NODE_ALIGN);
    assert Pow2(4) == 16;
    assert Pow2(PAGE_ORDER) >= 16 by {
      assert Pow2(8) == 16 * Pow2(4);
      assert Pow2(12) == 16 * Pow2(8);
    }
  }

  /** The alignment a block really has. */
  function Order(l: Layout): nat {
    if SmallClass(l).Some? then CLASS_ORDER + SmallClass(l).value else SizeAlign(l).1
  }

  ghost predicate LiveAligned(live: seq<Block>) {
    forall i :: 0 <= i < |live| ==> AlignedAt(live[i].addr, Order(live[i].layout))
  }

  lemma ClassAligned(l: Layout)
    ensures l.order <= Order(l) && NODE_ALIGN <= Order(l)
  {
    if SmallClass(l).Some? && l.order > Order(l) {
      PowLess(Order(l), l.order);
    }
  }

  lemma {:induction false} PowLess(a: nat, b: nat)
    requires a < b
    ensures Pow2(a) < Pow2(b)
  {
    if a + 1 < b {
      PowLess(a, b - 1);
    }
  }

  // ---- the lists in memory ------------------------------------------------------------------------

  function StartAt(l: seq<Region>, i: nat): Option<nat> {
    if i < |l| then Some(l[i].start) else None
  }

  ghost predicate Chain(memory: map<nat, Cell>, head: Option<nat>, l: seq<Region>) {
    head == StartAt(l, 0) && forall i: nat {:trigger NodeOk(memory, l, i)} :: i < |l| ==> NodeOk(memory, l, i)
  }

  predicate NodeOk(memory: map<nat, Cell>, l: seq<Region>, i: nat)
    requires i < |l|
  {
    Holds(memory, l[i].start, Node(l[i].size, StartAt(l, i + 1)))
  }

  predicate Holds(memory: map<nat, Cell>, a: nat, cell: Cell) {
    a in memory && memory[a] == cell
  }

  function LinkAt(l: seq<nat>, i: nat): nat {
    if i < |l| then l[i] else 0
  }

  /** A class list: aligned blocks, linked by address. */
  ghost predicate SmallChain(memory: map<nat, Cell>, head: nat, l: seq<nat>, order: nat) {
    && head == LinkAt(l, 0)
    && forall i :: 0 <= i < |l| ==>
        l[i] > 0 && AlignedAt(l[i], order) && l[i] in memory && memory[l[i]] == Link(LinkAt(l, i + 1))
  }

  /** What adding a region leaves in memory. */
  ghost predicate AddedIn(memory': map<nat, Cell>, l: seq<Region>, r: Region, p: nat)
    requires p <= |l|
  {
    && Holds(memory', Merged(l, r, p).start,
        Node(Merged(l, r, p).size, StartAt(l, if TouchesRight(l, r, p) then p + 1 else p)))
    && (p > 0 && !TouchesLeft(l, r, p) ==> Holds(memory', l[p - 1].start, Node(l[p - 1].size, Some(r.start))))
    && forall i: nat {:trigger NodeOk(memory', l, i)} :: i < |l| && i != p - 1 && !(i == p && TouchesRight(l, r, p)) ==>
         NodeOk(memory', l, i)
  }

  lemma AddedChain(memory: map<nat, Cell>, memory': map<nat, Cell>, head: Option<nat>, head': Option<nat>,
                   l: seq<Region>, r: Region, p: nat)
    requires Chain(memory, head, l) && p <= |l| && AddedIn(memory', l, r, p)
    requires head' == if p == 0 then Some(r.start) else head
    ensures Chain(memory', head', Added(l, r, p))
  {
    var l' := Added(l, r, p);
    var a := if TouchesLeft(l, r, p) then p - 1 else p;
    var b := if TouchesRight(l, r, p) then p + 1 else p;
    assert l'[a] == Merged(l, r, p) && forall i: nat :: i < a ==> l'[i] == l[i];
    assert forall i: nat :: a < i < |l'| ==> l'[i] == l[i - a - 1 + b];
    forall i: nat | i < |l'|
      ensures NodeOk(memory', l', i)
    {
      if i < a {
        assert i != p - 1 ==> NodeOk(memory', l, i);
      } else if i > a {
        assert NodeOk(memory', l, i - a - 1 + b);
      }
    }
  }

  /** Nothing changes but at `a` and at `previous`. */
  ghost predicate Touched(memory: map<nat, Cell>, memory': map<nat, Cell>, a: nat, previous: Option<nat>) {
    forall x {:trigger x in memory'} :: x in memory && x != a && Some(x) != previous ==>
        x in memory' && memory'[x] == memory[x]
  }

  lemma SpliceResult(memory: map<nat, Cell>, memory': map<nat, Cell>, l: seq<Region>, r: Region, p: nat)
    requires Sorted(l) && RegionOk(r) && Slot(l, r, p)
    requires (forall i: nat {:trigger NodeOk(memory, l, i)} :: i < |l| ==> NodeOk(memory, l, i))
    requires Touched(memory, memory', r.start, if p == 0 then None else StartAt(l, p - 1))
    requires Holds(memory', Merged(l, r, p).start,
        Node(Merged(l, r, p).size, StartAt(l, if TouchesRight(l, r, p) then p + 1 else p)))
    requires p > 0 && !TouchesLeft(l, r, p) ==> Holds(memory', l[p - 1].start, Node(l[p - 1].size, Some(r.start)))
    ensures AddedIn(memory', l, r, p)
  {
    forall i: nat | i < |l| && i != p - 1 && !(i == p && TouchesRight(l, r, p))
      ensures NodeOk(memory', l, i)
    {
      assert NodeOk(memory, l, i);
      assert l[i].start != r.start && (p > 0 ==> l[i].start != l[p - 1].start);
    }
  }

  lemma SpliceFrame(memory: map<nat, Cell>, memory': map<nat, Cell>, l: seq<Region>, r: Region, p: nat)
    requires Sorted(l) && RegionOk(r) && p <= |l|
    requires Touched(memory, memory', r.start, if p == 0 then None else StartAt(l, p - 1))
    ensures ListOnly(memory, memory', l, r)
  {
    forall a: nat | a in memory && Count(l, a) == 0 && r.At(a) == 0
      ensures a in memory' && memory'[a] == memory[a]
    {
      if p > 0 && a == l[p - 1].start {
        CountHolds(l, p - 1, a);
      }
    }
  }

  lemma RemovedChain(memory: map<nat, Cell>, memory': map<nat, Cell>, head: Option<nat>, head': Option<nat>,
                     l: seq<Region>, i: nat)
    requires Chain(memory, head, l) && Sorted(l) && i < |l|
    requires if i == 0 then memory' == memory && head' == StartAt(l, 1)
             else head' == head && memory' == memory[l[i - 1].start := Node(l[i - 1].size, StartAt(l, i + 1))]
    ensures Chain(memory', head', l[..i] + l[i + 1..])
  {
    var l' := l[..i] + l[i + 1..];
    forall j: nat | j < |l'|
      ensures NodeOk(memory', l', j)
    {
      var k := if j < i then j else j + 1;
      assert l'[j] == l[k] && NodeOk(memory, l, k);
      assert i > 0 && k != i - 1 ==> l[k].start != l[i - 1].start;
    }
  }

  // ---- all the pieces -----------------------------------------------------------------------------------

  /** The blocks of a class list as regions. */
  ghost function Regions(l: seq<nat>, size: nat): (r: seq<Region>)
    ensures |r| == |l| && forall i :: 0 <= i < |l| ==> r[i] == Region(l[i], size)
  {
    seq(|l|, i requires 0 <= i < |l| => Region(l[i], size))
  }

  ghost function SmallCount(small: seq<seq<nat>>, c: nat, x: nat): nat
    requires c <= |small|
  {
    if c == 0 then 0 else SmallCount(small, c - 1, x) + Count(Regions(small[c - 1], ClassSize(c - 1)), x)
  }

  ghost function LiveRegions(live: seq<Block>): (r: seq<Region>)
    ensures |r| == |live| && forall i :: 0 <= i < |live| ==> r[i] == Region(live[i].addr, Taken(live[i].layout))
  {
    seq(|live|, i requires 0 <= i < |live| => Region(live[i].addr, Taken(live[i].layout)))
  }

  /** How many pieces hold the byte at `x`. */
  ghost function Pieces(free: seq<Region>, small: seq<seq<nat>>, live: seq<Block>, x: nat): nat {
    Count(free, x) + SmallCount(small, |small|, x) + Count(LiveRegions(live), x)
  }

  lemma {:induction false} SmallUpdate(small: seq<seq<nat>>, k: nat, l: seq<nat>, c: nat, x: nat)
    requires k < |small| && c <= |small|
    ensures SmallCount(small[k := l], c, x) + (if k < c then Count(Regions(small[k], ClassSize(k)), x) else 0) ==
            SmallCount(small, c, x) + (if k < c then Count(Regions(l, ClassSize(k)), x) else 0)
  {
    if c > 0 {
      SmallUpdate(small, k, l, c - 1, x);
    }
  }

  lemma PushCount(l: seq<nat>, a: nat, size: nat, x: nat)
    ensures Count(Regions([a] + l, size), x) == Region(a, size).At(x) + Count(Regions(l, size), x)
  {
    assert Regions([a] + l, size) == [Region(a, size)] + Regions(l, size);
    CountConcat([Region(a, size)], Regions(l, size), x);
    CountOne(Region(a, size), x);
  }

  /** Pushing block `a` on class list `c` adds its bytes. */
  lemma PushPieces(free: seq<Region>, small: seq<seq<nat>>, live: seq<Block>, c: nat, a: nat, x: nat)
    requires c < |small|
    ensures Pieces(free, small[c := [a] + small[c]], live, x) ==
        Pieces(free, small, live, x) + Region(a, ClassSize(c)).At(x)
  {
    SmallUpdate(small, c, [a] + small[c], |small|, x);
    PushCount(small[c], a, ClassSize(c), x);
  }

  /** Popping it takes them away. */
  lemma PopPieces(free: seq<Region>, small: seq<seq<nat>>, live: seq<Block>, c: nat, x: nat)
    requires c < |small| && small[c] != []
    ensures Pieces(free, small[c := small[c][1..]], live, x) + Region(small[c][0], ClassSize(c)).At(x) ==
        Pieces(free, small, live, x)
  {
    SmallUpdate(small, c, small[c][1..], |small|, x);
    PushCount(small[c][1..], small[c][0], ClassSize(c), x);
    assert small[c] == [small[c][0]] + small[c][1..];
  }

  lemma LivePieces(free: seq<Region>, small: seq<seq<nat>>, live: seq<Block>, b: Block, x: nat)
    ensures Pieces(free, small, live + [b], x) == Pieces(free, small, live, x) + Region(b.addr, Taken(b.layout)).At(x)
  {
    var r := Region(b.addr, Taken(b.layout));
    assert LiveRegions(live + [b]) == LiveRegions(live) + [r];
    CountConcat(LiveRegions(live), [r], x);
    CountOne(r, x);
  }

  lemma DeadPieces(free: seq<Region>, small: seq<seq<nat>>, live: seq<Block>, i: nat, x: nat)
    requires i < |live|
    ensures Pieces(free, small, live[..i] + live[i + 1..], x) + Region(live[i].addr, Taken(live[i].layout)).At(x) ==
        Pieces(free, small, live, x)
  {
    assert LiveRegions(live[..i] + live[i + 1..]) == LiveRegions(live)[..i] + LiveRegions(live)[i + 1..];
    RemovedCount(LiveRegions(live), i, x);
  }

  /** A listed small block is counted at its own address. */
  lemma {:induction false} SmallHolds(small: seq<seq<nat>>, c: nat, k: nat, i: nat)
    requires k < c <= |small| && i < |small[k]|
    ensures SmallCount(small, c, small[k][i]) >= 1
  {
    if k == c - 1 {
      CountHolds(Regions(small[k], ClassSize(k)), i, small[k][i]);
    } else {
      SmallHolds(small, c - 1, k, i);
    }
  }

  /** Only the nodes of free regions and the new region's first bytes are written. */
  ghost predicate ListOnly(memory: map<nat, Cell>, memory': map<nat, Cell>, free: seq<Region>, r: Region) {
    forall a: nat {:trigger a in memory'} :: a in memory && Count(free, a) == 0 && r.At(a) == 0 ==>
        a in memory' && memory'[a] == memory[a]
  }

  ghost predicate Clear(l: seq<Region>, r: Region) {
    forall x: nat :: r.At(x) == 1 ==> Count(l, x) == 0
  }

  ghost predicate SmallLists(memory: map<nat, Cell>, heads: seq<nat>, small: seq<seq<nat>>) {
    && |small| == CLASSES && |heads| == CLASSES
    && forall c: nat {:trigger ClassOk(memory, heads, small, c)} :: c < CLASSES ==> ClassOk(memory, heads, small, c)
  }

  ghost predicate ClassOk(memory: map<nat, Cell>, heads: seq<nat>, small: seq<seq<nat>>, c: nat)
    requires c < |heads| && c < |small|
  {
    SmallChain(memory, heads[c], small[c], CLASS_ORDER + c)
  }

  lemma SmallChainFrame(memory: map<nat, Cell>, memory': map<nat, Cell>, head: nat, l: seq<nat>, order: nat)
    requires SmallChain(memory, head, l, order)
    requires forall i :: 0 <= i < |l| ==> l[i] in memory' && memory'[l[i]] == memory[l[i]]
    ensures SmallChain(memory', head, l, order)
  {
  }

  /** An allocation at `a` lies in the region and leaves on either side nothing or room for a node. */
  ghost predicate Cuts(region: Region, a: nat, size: nat) {
    && region.start <= a && a + size <= region.End()
    && (a == region.start || a >= region.start + NODE)
    && (a + size == region.End() || a + size + NODE <= region.End())
  }

  /** `alloc_from_region`: where an allocation goes in a free region. Only the lowest aligned address
      is tried. */
  function AllocFrom(region: Region, size: nat, order: nat): Option<nat> {
    var a := AlignUp(region.start, order);
    var end := a + size;
    if a > region.start && a < region.start + NODE then None
    else if end > region.End() || end < region.End() < end + NODE then None
    else Some(a)
  }

  /** `a` is the lowest aligned address of the region; the allocation goes there exactly when it can
      be cut out there. */
  lemma AllocFromIs(region: Region, size: nat, order: nat, a: nat)
    requires AlignedAt(a, order) && region.start <= a
    requires forall b: nat :: AlignedAt(b, order) && region.start <= b ==> a <= b
    ensures AllocFrom(region, size, order) == if Cuts(region, a, size) then Some(a) else None
  {
    AlignUpIs(region.start, order, a);
  }

  /** Where a run of blocks fits, one block does. */
  lemma SmallerFits(region: Region, size: nat, more: nat, order: nat)
    requires AllocFrom(region, more, order).Some? && (more == size || more >= size + NODE)
    ensures AllocFrom(region, size, order).Some?
  {
  }

  ghost predicate NoneFits(free: seq<Region>, n: nat, size: nat, order: nat) {
    forall i :: 0 <= i < n <= |free| ==> AllocFrom(free[i], size, order).None?
  }

  lemma OneBlockFits(free: seq<Region>, c: nat, b: nat)
    requires !NoneFits(free, |free|, Pow2(CLASS_ORDER + c + b), CLASS_ORDER + c)
    ensures !NoneFits(free, |free|, ClassSize(c), CLASS_ORDER + c)
  {
    var i :| 0 <= i < |free| && AllocFrom(free[i], Pow2(CLASS_ORDER + c + b), CLASS_ORDER + c).Some?;
    if b > 0 {
      Pow2Mono(CLASS_ORDER + c + 1, CLASS_ORDER + c + b);
      Pow2Mono(CLASS_ORDER, CLASS_ORDER + c);
    }
    SmallerFits(free[i], ClassSize(c), Pow2(CLASS_ORDER + c + b), CLASS_ORDER + c);
  }

  /** Each byte of `low .. high` is in exactly one piece or region of `extra`, no other byte is in any. */
  ghost predicate Tiling(low: nat, high: nat, free: seq<Region>, small: seq<seq<nat>>, live: seq<Block>,
                         extra: seq<Region>) {
    forall x: nat {:trigger Pieces(free, small, live, x)} ::
      Pieces(free, small, live, x) + Count(extra, x) == if low <= x < high then 1 else 0
  }

  /** Bytes move from what the caller holds to the free list, or back. */
  lemma FreeTiling(low: nat, high: nat, free: seq<Region>, free': seq<Region>, small: seq<seq<nat>>, live: seq<Block>,
                   extra: seq<Region>, rest: seq<Region>, r: Region)
    requires Adds(rest, extra, r) && Adds(free, free', r) && Tiling(low, high, free, small, live, extra)
    ensures Tiling(low, high, free', small, live, rest)
  {
    forall x: nat
      ensures Pieces(free', small, live, x) + Count(rest, x) == if low <= x < high then 1 else 0
    {
      assert r.At(x) >= 0;
      assert Pieces(free, small, live, x) + Count(extra, x) == if low <= x < high then 1 else 0;
    }
  }

  lemma TakeTiling(low: nat, high: nat, free: seq<Region>, free': seq<Region>, small: seq<seq<nat>>, live: seq<Block>,
                   extra: seq<Region>, more: seq<Region>, r: Region)
    requires Adds(extra, more, r) && Adds(free', free, r) && Tiling(low, high, free, small, live, extra)
    ensures Tiling(low, high, free', small, live, more)
  {
    forall x: nat
      ensures Pieces(free', small, live, x) + Count(more, x) == if low <= x < high then 1 else 0
    {
      assert r.At(x) >= 0;
      assert Pieces(free, small, live, x) + Count(extra, x) == if low <= x < high then 1 else 0;
    }
  }

  /** Every byte of `r` is counted among the free regions or those held. */
  ghost predicate Spoken(free: seq<Region>, extra: seq<Region>, r: Region) {
    forall x: nat {:trigger r.At(x)} :: r.At(x) == 1 ==> Count(free, x) + Count(extra, x) >= 1
  }

  /** What a caller holds is not on the free list. */
  lemma ClearOf(free: seq<Region>, small: seq<seq<nat>>, live: seq<Block>, extra: seq<Region>, rest: seq<Region>,
                r: Region)
    requires Adds(rest, extra, r)
    requires forall x: nat {:trigger Pieces(free, small, live, x)} ::
        Pieces(free, small, live, x) + Count(extra, x) <= 1
    ensures Clear(free, r) && Spoken(free, extra, r)
  {
    forall x: nat | r.At(x) == 1
      ensures Count(free, x) == 0 && Count(extra, x) >= 1
    {
      assert Pieces(free, small, live, x) + Count(extra, x) <= 1;
    }
  }

  /** Small blocks are elsewhere than the free regions and `r`. */
  lemma SmallKeeps(memory: map<nat, Cell>, memory': map<nat, Cell>, heads: seq<nat>, low: nat, high: nat,
                   free: seq<Region>,
                   small: seq<seq<nat>>, live: seq<Block>, extra: seq<Region>, r: Region)
    requires SmallLists(memory, heads, small) && Tiling(low, high, free, small, live, extra)
    requires ListOnly(memory, memory', free, r) && Spoken(free, extra, r)
    ensures SmallLists(memory', heads, small)
  {
    forall c: nat | c < CLASSES
      ensures ClassOk(memory', heads, small, c)
    {
      assert ClassOk(memory, heads, small, c);
      forall i | 0 <= i < |small[c]|
        ensures small[c][i] in memory' && memory'[small[c][i]] == memory[small[c][i]]
      {
        SmallApart(low, high, free, small, live, extra, r, c, i);
      }
      SmallChainFrame(memory, memory', heads[c], small[c], CLASS_ORDER + c);
    }
  }

  lemma SmallApart(low: nat, high: nat, free: seq<Region>, small: seq<seq<nat>>, live: seq<Block>, extra: seq<Region>,
                   r: Region, c: nat, i: nat)
    requires Tiling(low, high, free, small, live, extra) && Spoken(free, extra, r) && c < |small| && i < |small[c]|
    ensures Count(free, small[c][i]) == 0 && r.At(small[c][i]) == 0
  {
    var a := small[c][i];
    SmallHolds(small, |small|, c, i);
    assert Pieces(free, small, live, a) + Count(extra, a) <= 1 && r.At(a) >= 0;
  }

  /** Writing at an address no free region and no small block holds disturbs neither list. */
  lemma WriteKeeps(memory: map<nat, Cell>, a: nat, cell: Cell, head: Option<nat>, free: seq<Region>, heads: seq<nat>,
                   small: seq<seq<nat>>)
    requires Chain(memory, head, free) && Sorted(free) && SmallLists(memory, heads, small)
    requires Count(free, a) == 0 && SmallCount(small, CLASSES, a) == 0
    ensures Chain(memory[a := cell], head, free) && SmallLists(memory[a := cell], heads, small)
  {
    var memory' := memory[a := cell];
    forall i: nat | i < |free|
      ensures NodeOk(memory', free, i)
    {
      assert NodeOk(memory, free, i);
      CountHolds(free, i, free[i].start);
    }
    forall c: nat | c < CLASSES
      ensures ClassOk(memory', heads, small, c)
    {
      assert ClassOk(memory, heads, small, c);
      forall i | 0 <= i < |small[c]|
        ensures small[c][i] in memory' && memory'[small[c][i]] == memory[small[c][i]]
      {
        SmallHolds(small, CLASSES, c, i);
      }
      SmallChainFrame(memory, memory', heads[c], small[c], CLASS_ORDER + c);
    }
  }

  lemma PushLists(memory: map<nat, Cell>, heads: seq<nat>, small: seq<seq<nat>>, c: nat, a: nat)
    requires c < CLASSES && a > 0 && AlignedAt(a, CLASS_ORDER + c) && SmallLists(memory, heads, small)
    requires a in memory && memory[a] == Link(heads[c])
    ensures SmallLists(memory, heads[c := a], small[c := [a] + small[c]])
  {
    var (heads', small') := (heads[c := a], small[c := [a] + small[c]]);
    forall k: nat | k < CLASSES
      ensures ClassOk(memory, heads', small', k)
    {
      assert ClassOk(memory, heads, small, k);
    }
  }

  lemma PopLists(memory: map<nat, Cell>, heads: seq<nat>, small: seq<seq<nat>>, c: nat)
    requires c < CLASSES && SmallLists(memory, heads, small) && small[c] != []
    ensures heads[c] == small[c][0] && Holds(memory, heads[c], Link(LinkAt(small[c], 1)))
    ensures AlignedAt(heads[c], CLASS_ORDER + c)
    ensures SmallLists(memory, heads[c := LinkAt(small[c], 1)], small[c := small[c][1..]])
  {
    var (heads', small') := (heads[c := LinkAt(small[c], 1)], small[c := small[c][1..]]);
    assert ClassOk(memory, heads, small, c);
    forall k: nat | k < CLASSES
      ensures ClassOk(memory, heads', small', k)
    {
      assert ClassOk(memory, heads, small, k);
    }
  }

  /** Bytes move between what the caller holds and a class list, or the live blocks. */
  lemma PushTiling(low: nat, high: nat, free: seq<Region>, small: seq<seq<nat>>, live: seq<Block>, c: nat, a: nat,
                   extra: seq<Region>, rest: seq<Region>)
    requires Tiling(low, high, free, small, live, extra) && c < |small| && Adds(rest, extra, Region(a, ClassSize(c)))
    ensures Tiling(low, high, free, small[c := [a] + small[c]], live, rest)
  {
    var r := Region(a, ClassSize(c));
    forall x: nat
      ensures Pieces(free, small[c := [a] + small[c]], live, x) + Count(rest, x) == if low <= x < high then 1 else 0
    {
      PushPieces(free, small, live, c, a, x);
      assert r.At(x) >= 0;
      assert Pieces(free, small, live, x) + Count(extra, x) == if low <= x < high then 1 else 0;
    }
  }

  lemma PopTiling(low: nat, high: nat, free: seq<Region>, small: seq<seq<nat>>, live: seq<Block>, c: nat)
    requires Tiling(low, high, free, small, live, []) && c < |small| && small[c] != []
    ensures Tiling(low, high, free, small[c := small[c][1..]], live, [Region(small[c][0], ClassSize(c))])
  {
    var r := Region(small[c][0], ClassSize(c));
    forall x: nat
      ensures Pieces(free, small[c := small[c][1..]], live, x) + Count([r], x) == if low <= x < high then 1 else 0
    {
      PopPieces(free, small, live, c, x);
      CountOne(r, x);
      assert Pieces(free, small, live, x) + Count([], x) == if low <= x < high then 1 else 0;
    }
  }

  lemma LiveTiling(low: nat, high: nat, free: seq<Region>, small: seq<seq<nat>>, live: seq<Block>, b: Block)
    requires Tiling(low, high, free, small, live, [Region(b.addr, Taken(b.layout))])
    ensures Tiling(low, high, free, small, live + [b], [])
  {
    var r := Region(b.addr, Taken(b.layout));
    forall x: nat
      ensures Pieces(free, small, live + [b], x) + Count([], x) == if low <= x < high then 1 else 0
    {
      LivePieces(free, small, live, b, x);
      CountOne(r, x);
      assert Pieces(free, small, live, x) + Count([r], x) == if low <= x < high then 1 else 0;
    }
  }

  lemma DeadTiling(low: nat, high: nat, free: seq<Region>, small: seq<seq<nat>>, live: seq<Block>, i: nat)
    requires Tiling(low, high, free, small, live, []) && i < |live|
    ensures Tiling(low, high, free, small, live[..i] + live[i + 1..], [Region(live[i].addr, Taken(live[i].layout))])
  {
    var r := Region(live[i].addr, Taken(live[i].layout));
    forall x: nat
      ensures Pieces(free, small, live[..i] + live[i + 1..], x) + Count([r], x) == if low <= x < high then 1 else 0
    {
      DeadPieces(free, small, live, i, x);
      CountOne(r, x);
      assert Pieces(free, small, live, x) + Count([], x) == if low <= x < high then 1 else 0;
    }
  }

  lemma SameTiling(low: nat, high: nat, free: seq<Region>, small: seq<seq<nat>>, live: seq<Block>, extra: seq<Region>,
                   extra': seq<Region>)
    requires Tiling(low, high, free, small, live, extra) && SameCount(extra, extra')
    ensures Tiling(low, high, free, small, live, extra')
  {
    forall x: nat
      ensures Pieces(free, small, live, x) + Count(extra', x) == if low <= x < high then 1 else 0
    {
      assert Pieces(free, small, live, x) + Count(extra, x) == if low <= x < high then 1 else 0;
    }
  }

  /** A held region is inside the heap, on no list. */
  lemma HeldAt(low: nat, high: nat, free: seq<Region>, small: seq<seq<nat>>, live: seq<Block>, extra: seq<Region>,
               a: nat)
    requires Tiling(low, high, free, small, live, extra) && Count(extra, a) >= 1 && |small| == CLASSES
    ensures low <= a < high && Count(free, a) == 0 && SmallCount(small, CLASSES, a) == 0
  {
    assert Pieces(free, small, live, a) + Count(extra, a) <= 1;
  }

  lemma {:induction false} NoSmall(small: seq<seq<nat>>, c: nat, x: nat)
    requires c <= |small| && forall i :: 0 <= i < c ==> small[i] == []
    ensures SmallCount(small, c, x) == 0
  {
    if c > 0 {
      NoSmall(small, c - 1, x);
      assert Regions(small[c - 1], ClassSize(c - 1)) == [];
    }
  }

  lemma RunFits(c: nat, b: nat)
    ensures ClassSize(c) <= Pow2(CLASS_ORDER + c + b)
    ensures AlignedAt(ClassSize(c), CLASS_ORDER + c) && AlignedAt(Pow2(CLASS_ORDER + c + b), CLASS_ORDER + c)
  {
    Pow2Mono(CLASS_ORDER + c, CLASS_ORDER + c + b);
    PowAligned(CLASS_ORDER + c, CLASS_ORDER + c);
    PowAligned(CLASS_ORDER + c + b, CLASS_ORDER + c);
  }

  // ---- the heap --------------------------------------------------------------------------------------------

  class Heap {
    ghost const low: nat
    ghost const high: nat
    var memory: map<nat, Cell>
    var head: Option<nat>
    var smallHeads: seq<nat>
    ghost var free: seq<Region>
    ghost var small: seq<seq<nat>>
    ghost var live: seq<Block>

    ghost predicate ListOk()
      reads this
    {
      Chain(memory, head, free) && Sorted(free)
    }

    ghost predicate SmallOk()
      reads this
    {
      SmallLists(memory, smallHeads, small)
    }

    /** Each byte of the heap is in exactly one free region, small block, live block or region
        of `extra`, and nothing outside the heap is in any. */
    ghost predicate Tiles(extra: seq<Region>)
      reads this
    {
      Tiling(low, high, free, small, live, extra)
    }

    ghost predicate Holding(extra: seq<Region>)
      reads this
    {
      low > 0 && ListOk() && SmallOk() && LiveAligned(live) && Tiles(extra)
    }

    ghost predicate Valid()
      reads this
    {
      Holding([])
    }

    // ---- the free list ---------------------------------------------------------------------------------

    /** Where a region goes: the node before it and the node after it, unless one is on it. */
    method Seek(r: Region) returns (clear: bool, previous: Option<nat>, next: Option<nat>, ghost p: nat)
      requires ListOk() && r.size > 0
      ensures clear <==> Clear(free, r)
      ensures clear ==>
            Slot(free, r, p) && previous == (if p == 0 then None else StartAt(free, p - 1)) && next == StartAt(free, p)
    {
      p, previous, next := 0, None, head;
      while next.Some? && r.End() > next.value
        invariant p <= |free| && next == StartAt(free, p) && previous == if p == 0 then None else StartAt(free, p - 1)
        invariant forall i :: 0 <= i < p ==> free[i].End() <= r.start
        decreases |free| - p
      {
        assert NodeOk(memory, free, p);
        var node := memory[next.value];
        if r.start < next.value + node.size {
          clear := false;
          ghost var x := Max(r.start, next.value);
          assert r.At(x) == 1;
          CountHolds(free, p, x);
          return;
        }
        previous, next, p := next, node.next, p + 1;
      }
      clear := true;
      assert Slot(free, r, p);
      forall x: nat | r.At(x) == 1
        ensures Count(free, x) == 0
      {
        SlotDisjoint(free, r, p, x);
      }
    }

    /** Link the region in between two nodes and merge it with them where they touch. */
    method Splice(r: Region, previous: Option<nat>, next: Option<nat>, ghost p: nat)
      requires ListOk() && RegionOk(r) && Slot(free, r, p)
      requires previous == (if p == 0 then None else StartAt(free, p - 1)) && next == StartAt(free, p)
      modifies this`memory, this`head
      ensures Chain(memory, head, Added(free, r, p)) && ListOnly(old(memory), memory, free, r)
    {
      var merged := LinkIn(r, previous, next, p);
      MergeRight(r, merged, previous, next, p, old(memory));
      SpliceResult(old(memory), memory, free, r, p);
      SpliceFrame(old(memory), memory, free, r, p);
      AddedChain(old(memory), memory, old(head), head, free, r, p);
    }

    method LinkIn(r: Region, previous: Option<nat>, next: Option<nat>, ghost p: nat) returns (merged: Region)
      requires ListOk() && RegionOk(r) && Slot(free, r, p)
      requires previous == (if p == 0 then None else StartAt(free, p - 1)) && next == StartAt(free, p)
      modifies this`memory, this`head
      ensures merged == if TouchesLeft(free, r, p) then Region(free[p - 1].start, free[p - 1].size + r.size) else r
      ensures Holds(memory, merged.start, Node(merged.size, next)) && Touched(old(memory), memory, r.start, previous)
      ensures p > 0 && !TouchesLeft(free, r, p) ==>
            Holds(memory, free[p - 1].start, Node(free[p - 1].size, Some(r.start)))
      ensures head == if p == 0 then Some(r.start) else old(head)
    {
      if p > 0 {
        assert NodeOk(memory, free, p - 1);
      }
      merged := r;
      memory := memory[r.start := Node(r.size, next)];
      if previous.Some? {
        var before := memory[previous.value];
        if previous.value + before.size == r.start {
          merged := Region(previous.value, before.size + r.size);
          memory := memory[merged.start := Node(merged.size, next)];
        } else {
          memory := memory[previous.value := Node(before.size, Some(r.start))];
        }
      } else {
        head := Some(r.start);
      }
    }

    method MergeRight(r: Region, merged: Region, previous: Option<nat>, next: Option<nat>, ghost p: nat,
                      ghost was: map<nat, Cell>)
      requires Slot(free, r, p) && RegionOk(r) && Sorted(free) && Touched(was, memory, r.start, previous)
      requires previous == (if p == 0 then None else StartAt(free, p - 1)) && next == StartAt(free, p)
      requires p < |free| ==> NodeOk(was, free, p)
      requires merged == if TouchesLeft(free, r, p) then Region(free[p - 1].start, free[p - 1].size + r.size) else r
      requires Holds(memory, merged.start, Node(merged.size, next))
      modifies this`memory
      ensures Touched(was, memory, r.start, previous)
      ensures Holds(memory, Merged(free, r, p).start,
          Node(Merged(free, r, p).size, StartAt(free, if TouchesRight(free, r, p) then p + 1 else p)))
      ensures forall x :: x in old(memory) && x != merged.start ==> x in memory && memory[x] == old(memory)[x]
    {
      if next.Some? && merged.End() == next.value {
        assert next.value != r.start && Some(next.value) != previous;
        memory := memory[merged.start := Node(merged.size + memory[next.value].size, memory[next.value].next)];
      }
    }

    /** `add_free_region`: refused when misaligned, too small for a node, or overlapping. */
    method AddFreeRegion(r: Region) returns (ok: bool)
      requires ListOk()
      modifies this`memory, this`head, this`free
      ensures ListOk() && (ok <==> RegionOk(r) && Clear(old(free), r))
      ensures !ok ==> memory == old(memory) && head == old(head) && free == old(free)
      ensures ok ==> ListOnly(old(memory), memory, old(free), r) && Adds(old(free), free, r)
    {
      if !AlignedAt(r.start, NODE_ALIGN) || r.size < NODE {
        return false;
      }
      var clear, previous, next, p := Seek(r);
      if !clear {
        return false;
      }
      Splice(r, previous, next, p);
      AddedSorted(free, r, p);
      forall x: nat
        ensures Count(Added(free, r, p), x) == Count(free, x) + r.At(x)
      {
        AddedCount(free, r, p, x);
      }
      free := Added(free, r, p);
      return true;
    }

    /** `find_region`: takes the first region that fits off the list. */
    method FindRegion(size: nat, order: nat) returns (r: Option<(Region, nat)>, ghost i: nat)
      requires ListOk()
      modifies this`memory, this`head, this`free
      ensures ListOk()
      ensures r.None? ==>
            memory == old(memory) && head == old(head) && free == old(free) && NoneFits(free, |free|, size, order)
      ensures r.Some? ==> i < |old(free)| && old(free)[i] == r.value.0 && NoneFits(old(free), i, size, order)
      ensures r.Some? ==>
            AllocFrom(r.value.0, size, order) == Some(r.value.1) && free == old(free)[..i] + old(free)[i + 1..]
      ensures r.Some? ==> ListOnly(old(memory), memory, old(free), r.value.0)
    {
      i := 0;
      var previous, current := None, head;
      while current.Some?
        invariant i <= |free| && current == StartAt(free, i)
        invariant previous == if i == 0 then None else StartAt(free, i - 1)
        invariant NoneFits(free, i, size, order)
        decreases |free| - i
      {
        assert NodeOk(memory, free, i);
        var node := memory[current.value];
        var region := Region(current.value, node.size);
        var place := AllocFrom(region, size, order);
        if place.Some? {
          TakeOff(previous, node.next, i);
          return Some((region, place.value)), i;
        }
        previous, current, i := current, node.next, i + 1;
      }
      r := None;
    }

    method TakeOff(previous: Option<nat>, next: Option<nat>, ghost i: nat)
      requires ListOk() && i < |free| && previous == (if i == 0 then None else StartAt(free, i - 1))
      requires next == StartAt(free, i + 1)
      modifies this`memory, this`head, this`free
      ensures ListOk() && free == old(free)[..i] + old(free)[i + 1..]
      ensures ListOnly(old(memory), memory, old(free), old(free)[i])
    {
      if previous.Some? {
        assert NodeOk(memory, free, i - 1);
        CountHolds(free, i - 1, free[i - 1].start);
        memory := memory[previous.value := Node(memory[previous.value].size, next)];
      } else {
        head := next;
      }
      RemovedChain(old(memory), memory, old(head), head, free, i);
      RemovedSorted(free, i);
      free := free[..i] + free[i + 1..];
    }

    // ---- bytes change hands -----------------------------------------------------------------------------------

    /** Put a region the caller holds on the free list. */
    method GiveBack(r: Region, ghost extra: seq<Region>, ghost rest: seq<Region>)
      requires Holding(extra) && RegionOk(r) && Adds(rest, extra, r)
      modifies this`memory, this`head, this`free
      ensures Holding(rest)
    {
      assert Clear(free, r) && Spoken(free, extra, r) by {
        ClearOf(free, small, live, extra, rest, r);
      }
      var ok := AddFreeRegion(r);
      assert SmallOk() by {
        SmallKeeps(old(memory), memory, smallHeads, low, high, old(free), small, live, extra, r);
      }
      assert Tiles(rest) by {
        FreeTiling(low, high, old(free), free, small, live, extra, rest, r);
      }
    }

    twostate predicate ListUnchanged()
      reads this
    {
      memory == old(memory) && head == old(head) && free == old(free)
    }

    /** Take a region that fits off the free list. */
    method Take(size: nat, order: nat) returns (r: Option<(Region, nat)>)
      requires Valid()
      modifies this`memory, this`head, this`free
      ensures r.None? ==> Valid() && ListUnchanged()
      ensures r.None? <==> NoneFits(old(free), |old(free)|, size, order)
      ensures r.Some? ==>
            Holding([r.value.0]) && AllocFrom(r.value.0, size, order) == Some(r.value.1) && RegionOk(r.value.0)
    {
      ghost var i;
      r, i := FindRegion(size, order);
      if r.Some? {
        ghost var region := r.value.0;
        RemovedAdds(old(free), i);
        SmallKeeps(old(memory), memory, smallHeads, low, high, old(free), small, live, [], region);
        OneAdds(region);
        TakeTiling(low, high, old(free), free, small, live, [], [region], region);
      }
    }

    /** Give back what an allocation at `a` leaves of the region on either side. */
    method Cut(region: Region, a: nat, size: nat, order: nat)
      requires Holding([region]) && RegionOk(region) && AllocFrom(region, size, order) == Some(a) && order >= NODE_ALIGN
      requires AlignedAt(size, NODE_ALIGN)
      modifies this`memory, this`head, this`free
      ensures Holding([Region(a, size)]) && AlignedAt(a, order)
    {
      AlignUpIs(region.start, order, 0);
      AlignedLower(a, NODE_ALIGN, order);
      AlignedSum(a, size, NODE_ALIGN);
      var prefix, excess := a - region.start, region.End() - (a + size);
      ghost var tail := Region(a, region.End() - a);
      CutAdds(region, a, size);
      if prefix != 0 {
        GiveBack(Region(region.start, prefix), [region], [tail]);
      }
      if excess != 0 {
        GiveBack(Region(a + size, excess), [tail], [Region(a, size)]);
      }
    }

    // ---- small blocks --------------------------------------------------------------------------------------------

    /** Put a block the caller holds on its class list. */
    method PushSmall(c: nat, a: nat, ghost extra: seq<Region>, ghost rest: seq<Region>)
      requires Holding(extra) && c < CLASSES && AlignedAt(a, CLASS_ORDER + c)
      requires Adds(rest, extra, Region(a, ClassSize(c)))
      modifies this`memory, this`smallHeads, this`small
      ensures Holding(rest)
    {
      assert Region(a, ClassSize(c)).At(a) == 1;
      HeldAt(low, high, free, small, live, extra, a);
      WriteKeeps(memory, a, Link(smallHeads[c]), head, free, smallHeads, small);
      memory := memory[a := Link(smallHeads[c])];
      PushLists(memory, smallHeads, small, c, a);
      PushTiling(low, high, free, small, live, c, a, extra, rest);
      smallHeads := smallHeads[c := a];
      small := small[c := [a] + small[c]];
    }

    method PopSmall(c: nat) returns (a: nat)
      requires Valid() && c < CLASSES && smallHeads[c] != 0
      modifies this`smallHeads, this`small
      ensures Holding([Region(a, ClassSize(c))]) && AlignedAt(a, CLASS_ORDER + c)
    {
      assert ClassOk(memory, smallHeads, small, c);
      PopLists(memory, smallHeads, small, c);
      PopTiling(low, high, free, small, live, c);
      a := smallHeads[c];
      smallHeads := smallHeads[c := memory[a].link];
      small := small[c := small[c][1..]];
    }

    /** Take a run of blocks for class `c`, as many of 32, 16, ... 1 as one region yields. */
    method TakeRun(c: nat) returns (r: Option<Region>, b: nat)
      requires Valid() && c < CLASSES
      modifies this`memory, this`head, this`free
      ensures r.None? ==> Valid() && ListUnchanged()
      ensures r.None? <==> NoneFits(old(free), |old(free)|, ClassSize(c), CLASS_ORDER + c)
      ensures r.Some? ==> AlignedAt(r.value.start, CLASS_ORDER + c) && r.value.size == Pow2(CLASS_ORDER + c + b)
      ensures r.Some? ==> Holding([r.value])
    {
      b := REFILL_ORDER;
      while true
        invariant Valid() && ListUnchanged()
        decreases b
      {
        r := TakeBlocks(c, b);
        if r.Some? || b == 0 {
          return;
        }
        b := b - 1;
      }
    }

    method TakeBlocks(c: nat, b: nat) returns (r: Option<Region>)
      requires Valid() && c < CLASSES
      modifies this`memory, this`head, this`free
      ensures r.None? ==> Valid() && ListUnchanged()
      ensures r.None? ==> NoneFits(old(free), |old(free)|, Pow2(CLASS_ORDER + c + b), CLASS_ORDER + c)
      ensures r.Some? ==> !NoneFits(old(free), |old(free)|, ClassSize(c), CLASS_ORDER + c)
      ensures r.Some? ==> AlignedAt(r.value.start, CLASS_ORDER + c) && r.value.size == Pow2(CLASS_ORDER + c + b)
      ensures r.Some? ==> Holding([r.value])
    {
      var total := Pow2(CLASS_ORDER + c + b);
      var found := Take(total, CLASS_ORDER + c);
      if found.None? {
        return None;
      }
      assert !NoneFits(old(free), |old(free)|, ClassSize(c), CLASS_ORDER + c) by {
        OneBlockFits(old(free), c, b);
      }
      PowAligned(CLASS_ORDER + c + b, NODE_ALIGN);
      Cut(found.value.0, found.value.1, total, CLASS_ORDER + c);
      return Some(Region(found.value.1, total));
    }

    /** `refill_small`: all blocks of the run but the first go on the class list. */
    method RefillSmall(c: nat) returns (r: Option<nat>)
      requires Valid() && c < CLASSES
      modifies this`memory, this`head, this`free, this`smallHeads, this`small
      ensures r.None? ==>
            Valid() && ListUnchanged() && smallHeads == old(smallHeads) && small == old(small)
      ensures r.None? <==> NoneFits(old(free), |old(free)|, ClassSize(c), CLASS_ORDER + c)
      ensures r.Some? ==> AlignedAt(r.value, CLASS_ORDER + c) && Holding([Region(r.value, ClassSize(c))])
    {
      var run, b := TakeRun(c);
      if run.None? {
        return None;
      }
      ThreadRun(c, run.value.start, b);
      return Some(run.value.start);
    }

    method ThreadRun(c: nat, a: nat, b: nat)
      requires c < CLASSES && AlignedAt(a, CLASS_ORDER + c) && Holding([Region(a, Pow2(CLASS_ORDER + c + b))])
      modifies this`memory, this`smallHeads, this`small
      ensures Holding([Region(a, ClassSize(c))])
    {
      var block, total := ClassSize(c), Pow2(CLASS_ORDER + c + b);
      RunFits(c, b);
      assert Tiles(Rest(a, block, block, total)) by {
        RunSplit(a, block, total);
        SameTiling(low, high, free, small, live, [Region(a, total)], Rest(a, block, block, total));
      }
      var offset := block;
      while offset < total
        invariant block <= offset <= total && AlignedAt(offset, CLASS_ORDER + c)
        invariant Holding(Rest(a, block, offset, total))
      {
        ThreadOne(c, a, offset, total);
        offset := offset + block;
      }
      RunEnds(a, block, total);
      SameTiling(low, high, free, small, live, Rest(a, block, total, total), [Region(a, block)]);
    }

    method ThreadOne(c: nat, a: nat, offset: nat, total: nat)
      requires c < CLASSES && AlignedAt(a, CLASS_ORDER + c) && AlignedAt(offset, CLASS_ORDER + c)
      requires AlignedAt(total, CLASS_ORDER + c) && offset < total
      requires Holding(Rest(a, ClassSize(c), offset, total))
      modifies this`memory, this`smallHeads, this`small
      ensures offset + ClassSize(c) <= total && AlignedAt(offset + ClassSize(c), CLASS_ORDER + c)
      ensures Holding(Rest(a, ClassSize(c), offset + ClassSize(c), total))
    {
      var block := ClassSize(c);
      NextAligned(offset, total, CLASS_ORDER + c);
      RunStep(a, block, offset, total);
      AlignedSum(a, offset, CLASS_ORDER + c);
      PowAligned(CLASS_ORDER + c, CLASS_ORDER + c);
      AlignedSum(offset, block, CLASS_ORDER + c);
      PushSmall(c, a + offset, Rest(a, block, offset, total), Rest(a, block, offset + block, total));
    }

    // ---- allocation ------------------------------------------------------------------------------------------------

    /** `init`: all of the heap is one free region, or there is no heap because the region is refused. */
    constructor (start: nat, size: nat)
      requires start > 0
      ensures Valid() && live == [] && low == start
      ensures if RegionOk(Region(start, size)) then free == [Region(start, size)] && high == start + size
              else free == [] && high == low
    {
      var ok := AlignUp(start, NODE_ALIGN) == start && size >= NODE;
      low, high := start, if ok then start + size else start;
      memory, head := if ok then map[start := Node(size, None)] else map[], if ok then Some(start) else None;
      smallHeads := [0, 0, 0, 0, 0, 0, 0, 0, 0];
      free, live := if ok then [Region(start, size)] else [], [];
      small := [[], [], [], [], [], [], [], [], []];
      new;
      AlignUpIs(start, NODE_ALIGN, start);
      if ok {
        assert NodeOk(memory, free, 0);
      }
      forall x: nat
        ensures Pieces(free, small, live, x) + Count([], x) == if low <= x < high then 1 else 0
      {
        if free != [] {
          CountOne(free[0], x);
        }
        NoSmall(small, CLASSES, x);
      }
    }

    /** `alloc` on the static heap: a new live block of the layout's size and alignment, or 0 when
        its class list is empty and no free region can be cut for it. */
    method Alloc(layout: Layout) returns (r: nat)
      requires Valid()
      modifies this
      ensures Valid()
      ensures r == 0 <==> old(Exhausted(layout))
      ensures r == 0 ==> ListUnchanged() && smallHeads == old(smallHeads) && small == old(small) && live == old(live)
      ensures r != 0 ==> live == old(live) + [Block(r, layout)] && AlignedAt(r, layout.order)
      ensures r != 0 ==> low <= r && r + layout.size <= r + Taken(layout) <= high
    {
      TakenFits(layout);
      var kind := SmallClass(layout);
      if kind.Some? {
        r := AllocSmall(kind.value);
      } else {
        r := AllocLarge(layout);
      }
      if r != 0 {
        ClassAligned(layout);
        AlignedLower(r, layout.order, Order(layout));
        HeldIsInside(r, Taken(layout));
        LiveTiling(low, high, free, small, live, Block(r, layout));
        live := live + [Block(r, layout)];
      }
    }

    /** Nothing the allocator looks at can serve the layout. */
    ghost predicate Exhausted(layout: Layout)
      reads this
    {
      if SmallClass(layout).Some? then
        var c := SmallClass(layout).value;
        |smallHeads| == CLASSES && smallHeads[c] == 0 && NoneFits(free, |free|, ClassSize(c), CLASS_ORDER + c)
      else NoneFits(free, |free|, SizeAlign(layout).0, SizeAlign(layout).1)
    }

    lemma HeldIsInside(a: nat, size: nat)
      requires Holding([Region(a, size)]) && size > 0
      ensures low <= a && a + size <= high
    {
      CountOne(Region(a, size), a);
      CountOne(Region(a, size), a + size - 1);
      HeldAt(low, high, free, small, live, [Region(a, size)], a);
      HeldAt(low, high, free, small, live, [Region(a, size)], a + size - 1);
    }

    method AllocSmall(c: nat) returns (r: nat)
      requires Valid() && c < CLASSES
      modifies this`memory, this`head, this`free, this`smallHeads, this`small
      ensures r == 0 ==> Valid() && ListUnchanged() && smallHeads == old(smallHeads) && small == old(small)
      ensures r == 0 <==>
              old(smallHeads)[c] == 0 && NoneFits(old(free), |old(free)|, ClassSize(c), CLASS_ORDER + c)
      ensures r != 0 ==> Holding([Region(r, ClassSize(c))]) && AlignedAt(r, CLASS_ORDER + c)
    {
      if smallHeads[c] != 0 {
        r := PopSmall(c);
        HeldIsInside(r, ClassSize(c));
      } else {
        var refilled := RefillSmall(c);
        if refilled.Some? {
          r := refilled.value;
          HeldIsInside(r, ClassSize(c));
        } else {
          r := 0;
        }
      }
    }

    method AllocLarge(layout: Layout) returns (r: nat)
      requires Valid() && SmallClass(layout).None?
      modifies this`memory, this`head, this`free
      ensures r == 0 ==> Valid() && ListUnchanged()
      ensures r == 0 <==> NoneFits(old(free), |old(free)|, SizeAlign(layout).0, SizeAlign(layout).1)
      ensures r != 0 ==> Holding([Region(r, SizeAlign(layout).0)]) && AlignedAt(r, SizeAlign(layout).1)
    {
      TakenFits(layout);
      var (size, order) := SizeAlign(layout);
      var found := Take(size, order);
      if found.None? {
        return 0;
      }
      r := found.value.1;
      Cut(found.value.0, r, size, order);
      HeldIsInside(r, size);
    }

    /** `dealloc` with the layout it was allocated with. */
    method Dealloc(a: nat, layout: Layout, ghost i: nat)
      requires Valid() && i < |live| && live[i] == Block(a, layout)
      modifies this
      ensures Valid() && live == old(live)[..i] + old(live)[i + 1..]
    {
      TakenFits(layout);
      ClassAligned(layout);
      AlignedLower(a, NODE_ALIGN, Order(layout));
      DeadTiling(low, high, free, small, live, i);
      live := live[..i] + live[i + 1..];
      var kind := SmallClass(layout);
      OneAdds(Region(a, Taken(layout)));
      if kind.Some? {
        PushSmall(kind.value, a, [Region(a, Taken(layout))], []);
      } else {
        GiveBack(Region(a, Taken(layout)), [Region(a, Taken(layout))], []);
      }
    }

    /** The owner of a live block writes to it. */
    method OwnerWrites(a: nat, cell: Cell)
      requires Valid() && Count(LiveRegions(live), a) >= 1
      modifies this`memory
      ensures Valid() && memory == old(memory)[a := cell]
    {
      assert Pieces(free, small, live, a) + Count([], a) <= 1;
      WriteKeeps(memory, a, cell, head, free, smallHeads, small);
      memory := memory[a := cell];
    }
  }
}
