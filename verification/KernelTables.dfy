/** Editing the kernel's page tables: one page at a time, splitting the larger leaf that covers it,
    or a range with the largest leaves that fit. The two agree exactly when no 2 MiB step meets a
    1 GiB leaf that says otherwise.
  */
module KernelTables {
  import opened Outcomes
  import opened PageEntries
  import opened KernelMap

  /** Pages below this map at the identity, pages from here on at the direct map. */
  const UPPER_HALF: nat := 0x8_0000_0000

  const LEAF_TEXT: bv64 := PRESENT
  const LEAF_WRITABLE: bv64 := PRESENT | WRITABLE | NO_EXECUTE
  const LEAF_MMIO: bv64 := PRESENT | WRITABLE | PWT | PCD | NO_EXECUTE

  datatype MemoryKind = Usable | Reserved | AcpiReclaimable | AcpiNvs | Runtime | Mmio

  function FlagsFor(kind: MemoryKind): (flags: bv64)
    ensures LeafFlags(flags)
  {
    match kind
    case Reserved => LEAF_TEXT
    case Mmio => LEAF_MMIO
    case _ => LEAF_WRITABLE
  }

  /** What accesses to memory of a kind may do, bit by bit: device registers are never cached, nothing
      but reserved memory is executable, and that cannot be written. */
  predicate Suits(a: Attributes, kind: MemoryKind) {
    && a.bits & PRESENT != 0 && a.bits & USER == 0 && !a.pat
    && (a.bits & WRITABLE != 0 <==> kind != Reserved) && (a.bits & NO_EXECUTE != 0 <==> kind != Reserved)
    && (a.bits & PWT != 0 <==> kind == Mmio) && (a.bits & PCD != 0 <==> kind == Mmio)
  }

  lemma FlagsSuit(kind: MemoryKind)
    ensures Suits(AttributesSmall(FlagsFor(kind)), kind)
  {
  }

  // ---- one page -----------------------------------------------------------------------------------------

  /** Table frames a page mapping needs: for what is missing on the way, and for each split. */
  function Needed(tops: set<int>, gigs: Gigs, v: nat): nat {
    (if GigOf(v) / SLOTS in tops then 0 else 1) + (if DirAt(gigs, v) then 0 else 1) + (if TabAt(gigs, v) then 0 else 1)
  }

  // ---- the range ----------------------------------------------------------------------------------------

  /** What `map_range` is asked for, in pages. */
  datatype Range = Range(start: nat, end: nat, direct: bool, kind: MemoryKind, gigabytes: bool)

  function Base(r: Range): (base: nat)
    ensures base % GIG == 0
  {
    if r.direct then UPPER_HALF else 0
  }

  /** The largest leaf that starts at the page and fits. */
  function LeafSize(r: Range, p: nat): (size: nat)
    requires p < r.end
    ensures size == 1 || size == SLOTS || size == GIG
    ensures p + size <= r.end && p % size == 0
  {
    if r.kind != Mmio && r.gigabytes && p % GIG == 0 && r.end - p >= GIG then GIG
    else if r.kind != Mmio && p % SLOTS == 0 && r.end - p >= SLOTS then SLOTS
    else 1
  }

  /** The physical page, seen at the identity or in the direct map, has the attributes of its kind. */
  predicate LeadsAs(gigs: Gigs, direct: bool, p: nat, kind: MemoryKind) {
    var t := Translate(gigs, if direct then p + UPPER_HALF else p);
    t.Some? && t.value.address == Address(p) && Suits(t.value.attributes, kind)
  }

  ghost predicate RangeSuits(gigs: Gigs, r: Range) {
    forall p: nat :: r.start <= p < r.end ==> LeadsAs(gigs, r.direct, p, r.kind)
  }

  lemma MappedSuits(r: Range, gigs: Gigs, gigs': Gigs)
    requires Mapped(gigs, gigs', Base(r), r.start, r.end, FlagsFor(r.kind))
    ensures RangeSuits(gigs', r)
  {
    forall p: nat | r.start <= p < r.end
      ensures LeadsAs(gigs', r.direct, p, r.kind)
    {
      assert Translate(gigs', p + Base(r)) == Some(Place(p, FlagsFor(r.kind)));
      PlaceSuits(gigs', r, p);
    }
  }

  lemma PlaceSuits(gigs: Gigs, r: Range, p: nat)
    requires Translate(gigs, p + Base(r)) == Some(Place(p, FlagsFor(r.kind)))
    ensures LeadsAs(gigs, r.direct, p, r.kind)
  {
    FlagsSuit(r.kind);
  }

  // ---- memory under a 1 GiB leaf ------------------------------------------------------------------------

  /** The word that lies where a page directory would be if the 1 GiB leaf were a table entry. */
  datatype Spot = Spot(table: bv64, index: nat)

  type Words = map<Spot, bv64>

  function SpotOf(e: LargeWord, v: nat): Spot {
    Spot(e & MASK_4K, MidOf(v))
  }

  /** Memory that was never written reads as zero. */
  function WordOf(memory: Words, s: Spot): bv64 {
    if s in memory then memory[s] else 0
  }

  predicate LooksLikeTable(memory: Words, s: Spot) {
    WordOf(memory, s) & PRESENT != 0 && WordOf(memory, s) & HUGE == 0
  }

  /** Entries that point to tables look like it; memory never written and large leaves do not. */
  lemma LooksRight(memory: Words, s: Spot, frame: bv64, leaf: LargeWord)
    ensures LooksLikeTable(memory[s := (frame & MASK_4K) | PRESENT | WRITABLE], s)
    ensures !LooksLikeTable(memory[s := leaf], s) && (s !in memory ==> !LooksLikeTable(memory, s))
  {
  }

  /** Writing a leaf where no table entry was found changes no such answer. */
  ghost predicate SameLooks(memory: Words, memory': Words) {
    forall s {:trigger LooksLikeTable(memory', s)} :: LooksLikeTable(memory', s) == LooksLikeTable(memory, s)
  }

  lemma StrayWrite(memory: Words, s: Spot, e: LargeWord)
    requires !LooksLikeTable(memory, s)
    ensures SameLooks(memory, memory[s := e])
  {
  }

  /** A 2 MiB leaf written at `v` would miss the tables: a 1 GiB leaf is taken for a page directory,
      and the word found in its memory is not a table entry either. */
  predicate Astray(gigs: Gigs, memory: Words, v: nat) {
    GiantAt(gigs, GigOf(v)) && !LooksLikeTable(memory, SpotOf(gigs[GigOf(v)].giant, v))
  }

  // ---- when a range with large leaves works -------------------------------------------------------------

  /** The first page of the range in its gigabyte. */
  predicate FirstInGig(r: Range, p: nat) {
    r.start <= p < r.end && (p == r.start || p % GIG == 0)
  }

  /** The mapping of the range would lose the page: it is the first of its gigabyte, its step is a
      2 MiB one, that goes astray, and the 1 GiB leaf there leads elsewhere. */
  predicate Loses(r: Range, gigs: Gigs, memory: Words, p: nat) {
    && FirstInGig(r, p) && LeafSize(r, p) == SLOTS
    && Astray(gigs, memory, p + Base(r))
    && !Leads(gigs, Base(r), FlagsFor(r.kind), p)
  }

  /** No page is lost. */
  ghost predicate Unobstructed(r: Range, gigs: Gigs, memory: Words) {
    forall p: nat {:trigger Loses(r, gigs, memory, p)} :: !Loses(r, gigs, memory, p)
  }

  /** No table is lost: what was split or filled stays so. */
  ghost predicate TablesStay(gigs: Gigs, gigs': Gigs) {
    forall v: nat {:trigger TabAt(gigs', v)} {:trigger DirAt(gigs', v)} ::
      (DirAt(gigs, v) ==> DirAt(gigs', v)) && (TabAt(gigs, v) ==> TabAt(gigs', v))
  }

  lemma TablesStayOn(a: Gigs, b: Gigs, c: Gigs)
    requires TablesStay(a, b) && TablesStay(b, c)
    ensures TablesStay(a, c)
  {
    forall v: nat
      ensures (DirAt(a, v) ==> DirAt(c, v)) && (TabAt(a, v) ==> TabAt(c, v))
    {
      assert (DirAt(b, v) ==> DirAt(c, v)) && (TabAt(b, v) ==> TabAt(c, v));
    }
  }

  lemma BigKeepsTables(gigs: Gigs, v: nat, e: LargeWord)
    requires DirAt(gigs, v) && !TabAt(gigs, v)
    ensures TablesStay(gigs, WithBig(gigs, v, e))
  {
  }

  /** More frames than mapping the range can take, whatever it finds. */
  function Most(r: Range): nat {
    if r.start < r.end then 5 * (r.end - r.start) else 0
  }

  // ---- the tables ---------------------------------------------------------------------------------------

  class Tables {
    /** Root slots in use; below them, the 1 GiB slots; and how many table frames are left. */
    var tops: set<int>
    var gigs: Gigs
    var free: nat
    /** Memory outside the tables, where a stray write may land. */
    var memory: Words
    /** Whether the lower half has been given up to user address spaces. */
    var lowerDropped: bool

    constructor (frames: nat)
      ensures tops == {} && gigs == map[] && free == frames && memory == map[] && !lowerDropped
    {
      tops, gigs, free, memory, lowerDropped := {}, map[], frames, map[], false;
    }

    /** The page lies in the half that has been given up. */
    predicate Barred(v: nat)
      reads this`lowerDropped
    {
      lowerDropped && v < UPPER_HALF
    }

    /** The 512 parts of a 2 MiB leaf. */
    static method BigParts(e: LargeWord) returns (pages: Pages)
      ensures BigSplit(e, pages)
    {
      pages := map[];
      var i: nat := 0;
      while i < SLOTS
        invariant i <= SLOTS
        invariant forall j: nat {:trigger j in pages} :: j < i ==> j in pages && pages[j] == PartOfBig(e, j)
      {
        pages := pages[i := PartOfBig(e, i)];
        i := i + 1;
      }
    }

    /** The 512 parts of a 1 GiB leaf. */
    static method GiantParts(e: LargeWord) returns (mids: Mids)
      ensures GiantSplit(e, mids)
    {
      mids := map[];
      var i: nat := 0;
      while i < SLOTS
        invariant i <= SLOTS
        invariant forall j: nat {:trigger j in mids} :: j < i ==> j in mids && mids[j] == Big(PartOfGiant(e, j))
      {
        mids := mids[i := Big(PartOfGiant(e, i))];
        i := i + 1;
      }
    }

    /** `child` at the root: a missing table takes a frame. */
    method EnsureTop(v: nat) returns (ok: bool)
      modifies this`tops, this`free
      ensures ok <==> GigOf(v) / SLOTS in old(tops) || old(free) > 0
      ensures ok ==> tops == old(tops) + {GigOf(v) / SLOTS}
      ensures ok ==> free == old(free) - if GigOf(v) / SLOTS in old(tops) then 0 else 1
      ensures !ok ==> free == old(free)
    {
      var k: int := GigOf(v) / SLOTS;
      if k in tops {
        assert tops + {k} == tops;
        return true;
      }
      if free == 0 {
        return false;
      }
      free := free - 1;
      tops := tops + {k};
      return true;
    }

    /** The page directory for `v`: a 1 GiB leaf is split, a missing one made. */
    method EnsureDir(v: nat) returns (ok: bool)
      modifies this`gigs, this`free
      ensures SameMap(old(gigs), gigs) && SameWords(old(gigs), gigs) && NoNewGiants(old(gigs), gigs)
      ensures SameAbove(old(gigs), gigs, GigOf(v))
      ensures ok <==> DirAt(old(gigs), v) || old(free) > 0
      ensures ok ==> DirAt(gigs, v) && (TabAt(gigs, v) <==> TabAt(old(gigs), v))
      ensures ok ==> free == old(free) - if DirAt(old(gigs), v) then 0 else 1
      ensures (!ok ==> free == old(free)) && TablesStay(old(gigs), gigs)
    {
      var k: int := GigOf(v);
      if DirAt(gigs, v) {
        return true;
      }
      if free == 0 {
        return false;
      }
      free := free - 1;
      var mids: Mids := map[];
      if k in gigs {
        mids := GiantParts(gigs[k].giant);
        GiantSplits(gigs[k].giant, mids);
        assert MidOf(v) in mids;
      }
      GigSame(gigs, k, Dir(mids));
      gigs := gigs[k := Dir(mids)];
      return true;
    }

    /** The page table for `v`: a 2 MiB leaf is split, a missing one made. */
    method EnsureTab(v: nat) returns (ok: bool)
      requires DirAt(gigs, v)
      modifies this`gigs, this`free
      ensures SameMap(old(gigs), gigs) && SameWords(old(gigs), gigs) && NoNewGiants(old(gigs), gigs)
      ensures SameAbove(old(gigs), gigs, GigOf(v))
      ensures ok <==> TabAt(old(gigs), v) || old(free) > 0
      ensures ok ==> TabAt(gigs, v)
      ensures ok ==> free == old(free) - if TabAt(old(gigs), v) then 0 else 1
      ensures (!ok ==> free == old(free)) && TablesStay(old(gigs), gigs)
    {
      if TabAt(gigs, v) {
        return true;
      }
      if free == 0 {
        return false;
      }
      free := free - 1;
      var k: int, m: int := GigOf(v), MidOf(v);
      var mids := gigs[k].mids;
      var pages: Pages := map[];
      if m in mids {
        pages := BigParts(mids[m].big);
      }
      TabAdded(mids, m, pages);
      GigSame(gigs, k, Dir(mids[m := Tab(pages)]));
      gigs := gigs[k := Dir(mids[m := Tab(pages)])];
      return true;
    }

    /** The tables down to the page's own, splitting what covers it. */
    method EnsureTables(v: nat) returns (ok: bool)
      modifies this`tops, this`gigs, this`free
      ensures SameMap(old(gigs), gigs) && SameWords(old(gigs), gigs) && NoNewGiants(old(gigs), gigs)
      ensures SameAbove(old(gigs), gigs, GigOf(v))
      ensures ok <==> Needed(old(tops), old(gigs), v) <= old(free)
      ensures ok ==> TabAt(gigs, v) && free == old(free) - Needed(old(tops), old(gigs), v)
      ensures free <= old(free) <= free + 3 && TablesStay(old(gigs), gigs)
    {
      ok := EnsureTop(v);
      if !ok {
        return;
      }
      ok := EnsureDir(v);
      if !ok {
        return;
      }
      ghost var was := gigs;
      ok := EnsureTab(v);
      SameTwice(old(gigs), was, gigs);
      GiantsTwice(old(gigs), was, gigs);
      TablesStayOn(old(gigs), was, gigs);
    }

    /** `map_page_locked`: exactly the one page changes, whatever leaf covered it; when it fails,
        for want of table frames, because the lower half is given up or because the page holds
        another word that may not be replaced, no translation does. */
    method MapPage(v: nat, a: bv64, flags: bv64, reject: bool) returns (ok: bool)
      requires PageFlags(flags) && Physical(a)
      modifies this`tops, this`gigs, this`free
      ensures if ok then PageMapped(old(gigs), gigs, v, Target(a, AttributesSmall(flags)))
              else SameMap(old(gigs), gigs)
      ensures NoNewGiants(old(gigs), gigs) && SameAbove(old(gigs), gigs, GigOf(v)) && (ok ==> TabAt(gigs, v))
      ensures ok <==>
                && !Barred(v) && Needed(old(tops), old(gigs), v) <= old(free)
                && (reject ==> WordAt(old(gigs), v) in {None, Some(a | flags)})
      ensures free <= old(free) <= free + 3 && TablesStay(old(gigs), gigs)
    {
      if Barred(v) {
        return false;
      }
      ok := EnsureTables(v);
      if !ok {
        return;
      }
      assert WordAt(gigs, v) == WordAt(old(gigs), v);
      var pages := gigs[GigOf(v)].mids[MidOf(v)].pages;
      var word := SmallLeaf(a, flags);
      if PageOf(v) in pages && pages[PageOf(v)] != word && reject {
        return false;
      }
      ghost var was := gigs;
      SetPage(v, a, flags);
      SameThenPage(old(gigs), was, gigs, v, Target(a, AttributesSmall(flags)));
      GiantsTwice(old(gigs), was, gigs);
      TablesStayOn(old(gigs), was, gigs);
    }

    method SetPage(v: nat, a: bv64, flags: bv64)
      requires TabAt(gigs, v) && PageFlags(flags) && Physical(a)
      modifies this`gigs
      ensures PageMapped(old(gigs), gigs, v, Target(a, AttributesSmall(flags)))
      ensures NoNewGiants(old(gigs), gigs) && SameAbove(old(gigs), gigs, GigOf(v)) && TabAt(gigs, v)
      ensures TablesStay(old(gigs), gigs)
    {
      PageSet(gigs, v, SmallLeaf(a, flags));
      SmallLeafLeads(a, flags);
      gigs := WithPage(gigs, v, SmallLeaf(a, flags));
    }

    /** `map_pages_at` and the page-by-page branch of `map_leaf`: every page of the range. */
    method MapPages(base: nat, lo: nat, hi: nat, flags: bv64) returns (ok: bool)
      requires PageFlags(flags) && lo < hi <= UPPER_HALF
      modifies this`tops, this`gigs, this`free
      ensures OnlyIn(old(gigs), gigs, base, lo, hi) && (ok ==> Mapped(old(gigs), gigs, base, lo, hi, flags))
      ensures NoNewGiants(old(gigs), gigs) && (ok ==> !GiantAt(gigs, GigOf(lo + base)))
      ensures SameAbove(old(gigs), gigs, GigOf(hi - 1 + base)) && TablesStay(old(gigs), gigs)
      ensures free <= old(free) <= free + 3 * (hi - lo)
      ensures Barred(lo + base) ==> !ok
      ensures !Barred(lo + base) && old(free) >= 3 * (hi - lo) ==> ok
    {
      var p := lo;
      while p < hi
        invariant free <= old(free) <= free + 3 * (p - lo) && TablesStay(old(gigs), gigs)
        invariant p > lo ==> !Barred(lo + base)
        invariant lo <= p <= hi && Mapped(old(gigs), gigs, base, lo, p, flags) && NoNewGiants(old(gigs), gigs)
        invariant lo < p ==> !GiantAt(gigs, GigOf(lo + base))
        invariant SameAbove(old(gigs), gigs, GigOf(hi - 1 + base))
      {
        ghost var was := gigs;
        AddressIsPhysical(p);
        ok := MapPage(p + base, Address(p), flags, false);
        GiantsTwice(old(gigs), was, gigs);
        AboveTwice(old(gigs), was, gigs, GigOf(p + base), GigOf(hi - 1 + base));
        TablesStayOn(old(gigs), was, gigs);
        if !ok {
          MappedOnlyIn(old(gigs), was, base, lo, p, flags);
          OnlyInOn(old(gigs), was, gigs, base, lo, p, p, hi);
          return;
        }
        PageIsRange(was, gigs, base, p, flags);
        MappedOn(old(gigs), was, gigs, base, lo, p, p + 1, flags);
        p := p + 1;
      }
      MappedOnlyIn(old(gigs), gigs, base, lo, hi, flags);
      ok := true;
    }

    /** A 1 GiB leaf, unless finer tables cover the range: those are filled page by page. */
    method MapGiant(base: nat, p: nat, flags: bv64) returns (ok: bool)
      requires LeafFlags(flags) && base % GIG == 0 && p % GIG == 0 && p + GIG <= UPPER_HALF
      modifies this`tops, this`gigs, this`free
      ensures OnlyIn(old(gigs), gigs, base, p, p + GIG)
      ensures ok ==> Mapped(old(gigs), gigs, base, p, p + GIG, flags)
      ensures SameAbove(old(gigs), gigs, GigOf(p + base))
      ensures !DirAt(old(gigs), p + base) ==> (ok <==> CanReach(old(tops), old(free), p + base))
      ensures !DirAt(old(gigs), p + base) && ok ==>
                gigs == old(gigs)[GigOf(p + base) := Giant(LargeLeaf(Address(p), flags))] && Reached(tops, p + base)
      ensures Uniform(old(gigs)) && flags == LEAF_WRITABLE && base in {0, UPPER_HALF} ==> Uniform(gigs)
      ensures TablesStay(old(gigs), gigs) && free <= old(free) <= free + 5 * GIG
      ensures !Barred(p + base) && old(free) >= 5 * GIG ==> ok
    {
      ok := EnsureTop(p + base);
      if !ok {
        return;
      }
      SlotPage(base, p);
      GiantBlock(base, p, p + GIG - 1 + base);
      if DirAt(gigs, p + base) {
        ok := MapPages(base, p, p + GIG, flags);
        StillUniform(old(gigs), gigs);
        return;
      }
      GiantSet(gigs, base, p, flags);
      if Uniform(gigs) {
        UniformGiant(gigs, GigOf(p + base));
      }
      gigs := gigs[GigOf(p + base) := Giant(LargeLeaf(Address(p), flags))];
    }

    /** A 2 MiB leaf likewise. A 1 GiB leaf above it is not looked for but taken for a page
        directory's entry: if the word found in the memory it maps looks like a table entry, the
        range is filled page by page; if not, the leaf is written there and the tables stay. */
    method MapBig(base: nat, p: nat, flags: bv64) returns (ok: bool)
      requires LeafFlags(flags) && base % GIG == 0 && p % SLOTS == 0 && p + SLOTS <= UPPER_HALF
      modifies this`tops, this`gigs, this`free, this`memory
      ensures Astray(old(gigs), old(memory), p + base) ==>
                gigs == old(gigs) && (ok <==> CanReach(old(tops), old(free), p + base))
      ensures !Astray(old(gigs), old(memory), p + base) && ok ==>
                Mapped(old(gigs), gigs, base, p, p + SLOTS, flags) && !GiantAt(gigs, GigOf(p + base))
      ensures ok && GiantAt(old(gigs), GigOf(p + base)) ==>
                (Mapped(old(gigs), gigs, base, p, p + SLOTS, flags) <==>
                 !Astray(old(gigs), old(memory), p + base) || Leads(old(gigs), base, flags, p))
      ensures OnlyIn(old(gigs), gigs, base, p, p + SLOTS)
      ensures SameAbove(old(gigs), gigs, GigOf(p + base)) && SameLooks(old(memory), memory)
      ensures NoNewGiants(old(gigs), gigs)
      ensures TablesStay(old(gigs), gigs) && free <= old(free) <= free + 5 * SLOTS
      ensures !Barred(p + base) && old(free) >= 5 * SLOTS ==> ok
      ensures ok ==> memory == if Astray(old(gigs), old(memory), p + base)
                               then old(memory)[SpotOf(old(gigs)[GigOf(p + base)].giant, p + base) :=
                                                LargeLeaf(Address(p), flags)]
                               else old(memory)
    {
      ok := EnsureTop(p + base);
      if !ok {
        return;
      }
      BigBlock(base, p, p + SLOTS - 1 + base);
      if GiantAt(gigs, GigOf(p + base)) {
        var spot := SpotOf(gigs[GigOf(p + base)].giant, p + base);
        if LooksLikeTable(memory, spot) {
          ok := MapPages(base, p, p + SLOTS, flags);
        } else {
          StrayWrite(memory, spot, LargeLeaf(Address(p), flags));
          memory := memory[spot := LargeLeaf(Address(p), flags)];
        }
        if ok {
          BigUnderGiant(old(gigs), gigs, old(memory), base, p, flags);
        }
        return;
      }
      ok := MapBigDir(base, p, flags);
    }

    /** ... where no 1 GiB leaf is in the way. */
    method MapBigDir(base: nat, p: nat, flags: bv64) returns (ok: bool)
      requires LeafFlags(flags) && base % GIG == 0 && p % SLOTS == 0 && p + SLOTS <= UPPER_HALF
      requires !GiantAt(gigs, GigOf(p + base)) && GigOf(p + SLOTS - 1 + base) == GigOf(p + base)
      modifies this`tops, this`gigs, this`free
      ensures OnlyIn(old(gigs), gigs, base, p, p + SLOTS)
      ensures ok ==> Mapped(old(gigs), gigs, base, p, p + SLOTS, flags) && !GiantAt(gigs, GigOf(p + base))
      ensures SameAbove(old(gigs), gigs, GigOf(p + base)) && NoNewGiants(old(gigs), gigs)
      ensures TablesStay(old(gigs), gigs) && free <= old(free) <= free + 4 * SLOTS
      ensures !Barred(p + base) && old(free) >= 4 * SLOTS ==> ok
    {
      ok := EnsureDir(p + base);
      if !ok {
        return;
      }
      ghost var was := gigs;
      if TabAt(gigs, p + base) {
        ok := MapPages(base, p, p + SLOTS, flags);
        GiantsTwice(old(gigs), was, gigs);
        TablesStayOn(old(gigs), was, gigs);
        if !ok {
          SameThenOnly(old(gigs), was, gigs, base, p, p + SLOTS);
          return;
        }
      } else {
        BigSet(gigs, base, p, flags);
        BigKeepsTables(gigs, p + base, LargeLeaf(Address(p), flags));
        gigs := WithBig(gigs, p + base, LargeLeaf(Address(p), flags));
        GiantsTwice(old(gigs), was, gigs);
        TablesStayOn(old(gigs), was, gigs);
      }
      SameThenMapped(old(gigs), was, gigs, base, p, p + SLOTS, flags);
      MappedOnlyIn(old(gigs), gigs, base, p, p + SLOTS, flags);
    }

    /** `map_leaf`. */
    method MapLeaf(r: Range, p: nat) returns (ok: bool)
      requires r.start <= p < r.end <= UPPER_HALF
      modifies this`tops, this`gigs, this`free, this`memory
      ensures SameLooks(old(memory), memory)
      ensures OnlyIn(old(gigs), gigs, Base(r), p, p + LeafSize(r, p))
      ensures ok ==> Stepped(r, old(gigs), old(memory), gigs, p)
      ensures Exactly(r, p, old(tops), old(gigs), old(free), old(memory), tops, gigs, ok)
      ensures r.kind != Reserved && Uniform(old(gigs)) ==> Uniform(gigs)
      ensures TablesStay(old(gigs), gigs) && free <= old(free) <= free + 5 * LeafSize(r, p)
      ensures !Barred(p + Base(r)) && old(free) >= 5 * LeafSize(r, p) ==> ok
    {
      var base, flags, size := Base(r), FlagsFor(r.kind), LeafSize(r, p);
      if size == 1 {
        ok := MapPages(base, p, p + 1, flags);
      } else if size == GIG {
        ok := MapGiant(base, p, flags);
      } else {
        ok := MapBig(base, p, flags);
      }
      if size != GIG {
        StillUniform(old(gigs), gigs);
      }
    }

    /** `map_range`: once it succeeds, the range translates as mapping it page by page would make
        it, if and only if no page of it was obstructed; no other page ever changes. */
    method MapRange(r: Range) returns (ok: bool)
      modifies this`tops, this`gigs, this`free, this`memory
      ensures OnlyIn(old(gigs), gigs, Base(r), r.start, r.end) && SameLooks(old(memory), memory)
      ensures ok && r.start < r.end ==> r.end <= UPPER_HALF
      ensures ok ==> (Mapped(old(gigs), gigs, Base(r), r.start, r.end, FlagsFor(r.kind)) <==>
                      Unobstructed(r, old(gigs), old(memory)))
      ensures ok && Unobstructed(r, old(gigs), old(memory)) ==> RangeSuits(gigs, r)
      ensures r.kind != Reserved && Uniform(old(gigs)) ==> Uniform(gigs)
      ensures OneStep(r) ==> Exactly(r, r.start, old(tops), old(gigs), old(free), old(memory), tops, gigs, ok)
      ensures r.start >= r.end ==> ok
      ensures TablesStay(old(gigs), gigs) && free <= old(free) <= free + Most(r)
      ensures r.start < r.end <= UPPER_HALF && !(lowerDropped && !r.direct) && old(free) >= Most(r) ==> ok
    {
      if r.start >= r.end {
        return true;
      }
      if r.end > UPPER_HALF {
        return false;
      }
      var p := r.start;
      ghost var lost: Option<nat> := None;
      NothingYet(r, gigs, memory);
      while p < r.end
        invariant r.start <= p <= r.end
        invariant TablesStay(old(gigs), gigs) && free <= old(free) <= free + 5 * (p - r.start)
        invariant Going(r, old(tops), old(gigs), old(free), old(memory), p, lost)
      {
        ghost var was := gigs;
        ok, p, lost := Step(r, old(tops), old(gigs), old(free), old(memory), p, lost);
        TablesStayOn(old(gigs), was, gigs);
        if !ok {
          return;
        }
      }
      Finished(r, old(gigs), old(memory), gigs, lost);
      if Unobstructed(r, old(gigs), old(memory)) {
        MappedSuits(r, old(gigs), gigs);
      }
      ok := true;
    }

    /** What holds before the step at `p`, by what the tables were at first. */
    ghost predicate Going(r: Range, tops0: set<int>, gigs0: Gigs, free0: nat, memory0: Words, p: nat, lost: Option<nat>)
      reads this
    {
      && OnlyIn(gigs0, gigs, Base(r), r.start, p) && SameLooks(memory0, memory)
      && (r.kind != Reserved && Uniform(gigs0) ==> Uniform(gigs))
      && (p == r.start ==> tops == tops0 && gigs == gigs0 && free == free0 && memory == memory0)
      && (p > r.start && OneStep(r) ==>
          p == r.end && Exactly(r, r.start, tops0, gigs0, free0, memory0, tops, gigs, true))
      && Progress(r, gigs0, memory0, gigs, p, lost)
    }

    method Step(r: Range, ghost tops0: set<int>, ghost gigs0: Gigs, ghost free0: nat, ghost memory0: Words, p: nat,
                ghost lost: Option<nat>) returns (ok: bool, next: nat, ghost lost': Option<nat>)
      requires r.start <= p < r.end <= UPPER_HALF && Going(r, tops0, gigs0, free0, memory0, p, lost)
      modifies this`tops, this`gigs, this`free, this`memory
      ensures OnlyIn(gigs0, gigs, Base(r), r.start, r.end) && SameLooks(memory0, memory)
      ensures r.kind != Reserved && Uniform(gigs0) ==> Uniform(gigs)
      ensures OneStep(r) ==> Exactly(r, r.start, tops0, gigs0, free0, memory0, tops, gigs, ok)
      ensures p < next <= r.end && (ok ==> Going(r, tops0, gigs0, free0, memory0, next, lost'))
      ensures TablesStay(old(gigs), gigs) && free <= old(free) <= free + 5 * (next - p)
      ensures !(lowerDropped && !r.direct) && old(free) >= 5 * (next - p) ==> ok
    {
      next := p + LeafSize(r, p);
      assert OneStep(r) ==> p == r.start && next == r.end;
      ok := MapLeaf(r, p);
      OnlyInOn(gigs0, old(gigs), gigs, Base(r), r.start, p, next, r.end);
      LooksTwice(memory0, old(memory), memory);
      lost' := lost;
      if ok {
        OnlyInOn(gigs0, old(gigs), gigs, Base(r), r.start, p, next, next);
        lost' := Advance(r, gigs0, memory0, old(gigs), old(memory), gigs, p, next, lost);
      }
    }
  }

  /** A table can be had at the root for the page, and is there. */
  predicate CanReach(tops: set<int>, free: nat, v: nat) {
    Reached(tops, v) || free > 0
  }

  predicate Reached(tops: set<int>, v: nat) {
    GigOf(v) / SLOTS in tops
  }

  /** The range is one leaf. */
  predicate OneStep(r: Range) {
    r.start < r.end <= UPPER_HALF && LeafSize(r, r.start) == r.end - r.start
  }

  /** Two steps that write one word: a 1 GiB leaf with no tables in its place, and a 2 MiB leaf
      that goes astray. */
  predicate Exactly(r: Range, p: nat, tops: set<int>, gigs: Gigs, free: nat, memory: Words,
                    tops': set<int>, gigs': Gigs, ok: bool)
    requires p < r.end
  {
    var v := p + Base(r);
    && (Misses(r, gigs, memory, p) ==> gigs' == gigs && (ok <==> CanReach(tops, free, v)))
    && (LeafSize(r, p) == GIG && !DirAt(gigs, v) ==>
          && (ok <==> CanReach(tops, free, v))
          && (ok ==> Reached(tops', v) && gigs' == gigs[GigOf(v) := Giant(LargeLeaf(Address(p), FlagsFor(r.kind)))]))
  }

  // ---- 1 GiB leaves at boot -----------------------------------------------------------------------------

  /** The page that the identity map and the direct map both keep in this slot. */
  function SlotStart(k: nat): nat {
    k % (UPPER_HALF / GIG) * GIG
  }

  /** Every 1 GiB leaf is the writable one for the memory that belongs in its slot. */
  ghost predicate Uniform(gigs: Gigs) {
    forall k: nat {:trigger GiantAt(gigs, k)} ::
      GiantAt(gigs, k) ==> gigs[k].giant == LargeLeaf(Address(SlotStart(k)), LEAF_WRITABLE)
  }

  lemma StillUniform(gigs: Gigs, gigs': Gigs)
    requires NoNewGiants(gigs, gigs')
    ensures Uniform(gigs) ==> Uniform(gigs')
  {
  }

  lemma UniformGiant(gigs: Gigs, k: nat)
    requires Uniform(gigs)
    ensures Uniform(gigs[k := Giant(LargeLeaf(Address(SlotStart(k)), LEAF_WRITABLE))])
  {
    var gigs' := gigs[k := Giant(LargeLeaf(Address(SlotStart(k)), LEAF_WRITABLE))];
    forall j: nat | GiantAt(gigs', j)
      ensures gigs'[j].giant == LargeLeaf(Address(SlotStart(j)), LEAF_WRITABLE)
    {
      if j != k {
        assert GiantAt(gigs, j);
      }
    }
  }

  lemma SlotPage(base: nat, p: nat)
    requires p % GIG == 0 && p < UPPER_HALF
    ensures base in {0, UPPER_HALF} ==> SlotStart(GigOf(p + base)) == p
  {
  }

  /** In tables that only ever mapped writable memory, as at boot, nothing is obstructed. */
  lemma UniformUnobstructed(r: Range, gigs: Gigs, memory: Words)
    requires Uniform(gigs) && r.kind != Reserved && (r.start < r.end ==> r.end <= UPPER_HALF)
    ensures Unobstructed(r, gigs, memory)
  {
    forall p: nat
      ensures !Loses(r, gigs, memory, p)
    {
      if FirstInGig(r, p) && LeafSize(r, p) == SLOTS && GiantAt(gigs, GigOf(p + Base(r))) {
        UniformLeads(r, gigs, p);
      }
    }
  }

  lemma UniformLeads(r: Range, gigs: Gigs, p: nat)
    requires Uniform(gigs) && r.kind !in {Reserved, Mmio} && p < UPPER_HALF && GiantAt(gigs, GigOf(p + Base(r)))
    ensures Leads(gigs, Base(r), FlagsFor(r.kind), p)
  {
    var v := p + Base(r);
    var start := SlotOf(Base(r), p);
    assert gigs[GigOf(v)].giant == LargeLeaf(Address(start), LEAF_WRITABLE);
    UniformTarget(start, p, MidOf(v), PageOf(v));
  }

  lemma UniformTarget(start: nat, p: nat, m: nat, i: nat)
    requires start % GIG == 0 && start < GIG * GIG && m < SLOTS && i < SLOTS && p == start + m * SLOTS + i
    ensures ThroughGiant(LargeLeaf(Address(start), LEAF_WRITABLE), m, i) == Place(p, LEAF_WRITABLE)
  {
    GiantLeafLeads(start, LEAF_WRITABLE, m, i);
  }

  /** Where the gigabyte of a page starts. */
  lemma SlotOf(base: nat, p: nat) returns (start: nat)
    requires base in {0, UPPER_HALF} && p < UPPER_HALF
    ensures SlotStart(GigOf(p + base)) == start && start % GIG == 0 && start < GIG * GIG
    ensures p == start + MidOf(p + base) * SLOTS + PageOf(p + base)
  {
    start := p / GIG * GIG;
    SlotPage(base, start);
    SameIndices(p, base);
    SameIndices(start, base);
  }

  /** Elsewhere the obstruction is real: map a gigabyte of reserved memory with one 1 GiB leaf, then
      2 MiB inside it as usable memory. Both calls succeed, and the second changes no translation:
      the range stays read-only. */
  method ReservedThenUsable(t: Tables, first: nat) returns (reserved: bool, usable: bool)
    requires t.gigs == map[] && t.memory == map[] && t.free > 0 && first < SLOTS
    modifies t
    ensures var r := Range(first * SLOTS, first * SLOTS + SLOTS, false, Usable, true);
      !Mapped(map[0 := Giant(LargeLeaf(Address(0), LEAF_TEXT))], t.gigs, 0, r.start, r.end, LEAF_WRITABLE)
    ensures t.gigs == map[0 := Giant(LargeLeaf(Address(0), LEAF_TEXT))] && reserved && usable
  {
    reserved := t.MapRange(Range(0, GIG, false, Reserved, true));
    var r := Range(first * SLOTS, first * SLOTS + SLOTS, false, Usable, true);
    TextIsNotData(r, t.gigs, t.memory);
    usable := t.MapRange(r);
  }

  lemma TextIsNotData(r: Range, gigs: Gigs, memory: Words)
    requires r.start % SLOTS == 0 && r.end == r.start + SLOTS <= GIG && !r.direct && r.kind == Usable
    requires gigs == map[0 := Giant(LargeLeaf(Address(0), LEAF_TEXT))]
    requires !LooksLikeTable(memory, SpotOf(gigs[0].giant, r.start))
    ensures Loses(r, gigs, memory, r.start)
  {
    assert GigOf(r.start) == 0;
    GiantLeafLeads(0, LEAF_TEXT, MidOf(r.start), PageOf(r.start));
  }

  // ---- one step of the range ----------------------------------------------------------------------------

  /** Nothing changes in the slots above `k`. */
  ghost predicate SameAbove(gigs: Gigs, gigs': Gigs, k: int) {
    forall j {:trigger j in gigs'} {:trigger j in gigs} ::
      j > k ==> (j in gigs' <==> j in gigs) && (j in gigs' ==> gigs'[j] == gigs[j])
  }

  lemma AboveTwice(a: Gigs, b: Gigs, c: Gigs, k: int, m: int)
    requires SameAbove(a, b, m) && SameAbove(b, c, k) && k <= m
    ensures SameAbove(a, c, m)
  {
    forall j | j > m
      ensures (j in c <==> j in a) && (j in c ==> c[j] == a[j])
    {
      assert j in b <==> j in c;
    }
  }

  lemma LooksTwice(a: Words, b: Words, c: Words)
    requires SameLooks(a, b) && SameLooks(b, c)
    ensures SameLooks(a, c)
  {
    forall s: Spot
      ensures LooksLikeTable(c, s) == LooksLikeTable(a, s)
    {
      assert LooksLikeTable(b, s) == LooksLikeTable(a, s);
    }
  }

  /** The step at `p` is a 2 MiB one that goes astray. */
  predicate Misses(r: Range, gigs: Gigs, memory: Words, p: nat)
    requires p < r.end
  {
    LeafSize(r, p) == SLOTS && Astray(gigs, memory, p + Base(r))
  }

  /** What a step that succeeds does. */
  ghost predicate Stepped(r: Range, was: Gigs, looked: Words, gigs: Gigs, p: nat)
    requires p < r.end
  {
    && SameAbove(was, gigs, GigOf(p + Base(r)))
    && if Misses(r, was, looked, p) then gigs == was
       else Mapped(was, gigs, Base(r), p, p + LeafSize(r, p), FlagsFor(r.kind)) &&
            (LeafSize(r, p) != GIG ==> !GiantAt(gigs, GigOf(p + Base(r))))
  }

  /** The last slot the steps before `p` may have touched. */
  function Touched(r: Range, p: nat): int {
    GigOf(p + Base(r)) - if p == r.start || p % GIG == 0 then 1 else 0
  }

  /** After the steps before `p`: either a page has been lost, or all is well so far. */
  ghost predicate Progress(r: Range, first: Gigs, memory: Words, gigs: Gigs, p: nat, lost: Option<nat>) {
    && SameAbove(first, gigs, Touched(r, p))
    && match lost
       case None => Well(r, first, memory, gigs, p)
       case Some(q) => q < p && Loses(r, first, memory, q) && Kept(first, gigs, q + Base(r))
  }

  /** The pages so far are right, none of them was obstructed, and a 1 GiB leaf that still stands
      where steps have been is right. */
  ghost predicate Well(r: Range, first: Gigs, memory: Words, gigs: Gigs, p: nat) {
    && Mapped(first, gigs, Base(r), r.start, p, FlagsFor(r.kind)) && NoneLost(r, first, memory, p)
    && (Touched(r, p) == GigOf(p + Base(r)) && GiantAt(gigs, GigOf(p + Base(r))) ==> Right(r, gigs, p))
  }

  ghost predicate NoneLost(r: Range, first: Gigs, memory: Words, p: nat) {
    forall q: nat {:trigger Loses(r, first, memory, q)} :: q < p ==> !Loses(r, first, memory, q)
  }

  predicate Kept(first: Gigs, gigs: Gigs, v: nat) {
    Translate(gigs, v) == Translate(first, v)
  }

  predicate Right(r: Range, gigs: Gigs, p: nat) {
    Leads(gigs, Base(r), FlagsFor(r.kind), p)
  }

  lemma NothingYet(r: Range, gigs: Gigs, memory: Words)
    ensures Progress(r, gigs, memory, gigs, r.start, None)
  {
    forall q: nat | q < r.start
      ensures !Loses(r, gigs, memory, q)
    {
    }
  }

  lemma Finished(r: Range, first: Gigs, memory: Words, gigs: Gigs, lost: Option<nat>)
    requires r.start < r.end && Progress(r, first, memory, gigs, r.end, lost)
    ensures Mapped(first, gigs, Base(r), r.start, r.end, FlagsFor(r.kind)) <==> Unobstructed(r, first, memory)
  {
    match lost
    case None =>
    case Some(q) =>
      assert Loses(r, first, memory, q);
  }

  /** Carrying `Progress` over one step. */
  lemma Advance(r: Range, first: Gigs, memory: Words, was: Gigs, looked: Words, gigs: Gigs, p: nat, p': nat,
                lost: Option<nat>) returns (lost': Option<nat>)
    requires r.start <= p < r.end <= UPPER_HALF && Progress(r, first, memory, was, p, lost) && SameLooks(memory, looked)
    requires p' == p + LeafSize(r, p) && OnlyIn(was, gigs, Base(r), p, p') && Stepped(r, was, looked, gigs, p)
    ensures Progress(r, first, memory, gigs, p', lost')
  {
    assert SameAbove(first, gigs, Touched(r, p')) by {
      AdvanceTouched(r, p);
      AboveOn(first, was, gigs, Touched(r, p), GigOf(p + Base(r)), Touched(r, p'));
    }
    if lost.Some? {
      AdvanceLost(r, first, memory, was, gigs, p, p', lost);
      lost' := lost;
    } else {
      lost' := AdvanceWell(r, first, memory, was, looked, gigs, p, p');
    }
  }

  lemma AdvanceWell(r: Range, first: Gigs, memory: Words, was: Gigs, looked: Words, gigs: Gigs, p: nat, p': nat)
    returns (lost: Option<nat>)
    requires r.start <= p < r.end <= UPPER_HALF && Progress(r, first, memory, was, p, None) && SameLooks(memory, looked)
    requires p' == p + LeafSize(r, p) && Stepped(r, was, looked, gigs, p) && SameAbove(first, gigs, Touched(r, p'))
    ensures Progress(r, first, memory, gigs, p', lost)
  {
    if Misses(r, was, looked, p) {
      lost := AdvanceAstray(r, first, memory, was, looked, p);
    } else {
      lost := None;
      AdvanceRight(r, first, memory, was, looked, gigs, p, p');
    }
  }

  lemma AdvanceLost(r: Range, first: Gigs, memory: Words, was: Gigs, gigs: Gigs, p: nat, p': nat, lost: Option<nat>)
    requires p <= p' && lost.Some? && Progress(r, first, memory, was, p, lost)
    requires OnlyIn(was, gigs, Base(r), p, p') && SameAbove(first, gigs, Touched(r, p'))
    ensures Progress(r, first, memory, gigs, p', lost)
  {
    assert Kept(was, gigs, lost.value + Base(r));
  }

  lemma AdvanceTouched(r: Range, p: nat)
    requires r.start <= p < r.end
    ensures var p' := p + LeafSize(r, p);
      && Touched(r, p) <= Touched(r, p') && GigOf(p + Base(r)) <= Touched(r, p')
      && (Touched(r, p') == GigOf(p' + Base(r)) ==> GigOf(p' + Base(r)) == GigOf(p + Base(r)) && LeafSize(r, p) != GIG)
  {
    var size := LeafSize(r, p);
    Block(p, size);
    GigAdds(p, Base(r));
    GigAdds(p + size, Base(r));
  }

  /** A step does not run past the end of its gigabyte. */
  lemma Block(p: nat, size: nat)
    requires (size == 1 || size == SLOTS || size == GIG) && p % size == 0
    ensures (p + size) / GIG == if (p + size) % GIG == 0 then p / GIG + 1 else p / GIG
    ensures size == GIG ==> (p + size) % GIG == 0
  {
    Digits(p);
    var room := GIG - p % GIG;
    assert size <= room;
    assert p == p / GIG * GIG + p % GIG;
  }

  lemma NoStartInside(p: nat, size: nat, q: nat)
    requires (size == 1 || size == SLOTS || size == GIG) && p % size == 0 && p < q < p + size
    ensures q % GIG != 0
  {
    Digits(p);
    assert p == p / GIG * GIG + p % GIG;
  }

  lemma GigAdds(p: nat, base: nat)
    requires base % GIG == 0
    ensures GigOf(p + base) == p / GIG + base / GIG
  {
  }

  lemma AboveOn(a: Gigs, b: Gigs, c: Gigs, j: int, k: int, m: int)
    requires SameAbove(a, b, j) && SameAbove(b, c, k) && j <= m && k <= m
    ensures SameAbove(a, c, m)
  {
    forall i | i > m
      ensures (i in c <==> i in a) && (i in c ==> c[i] == a[i])
    {
      assert i in b <==> i in c;
    }
  }

  /** At the first page of its gigabyte, the step finds what was there from the start. */
  lemma FreshSlot(r: Range, first: Gigs, memory: Words, was: Gigs, looked: Words, p: nat)
    requires FirstInGig(r, p) && SameAbove(first, was, Touched(r, p)) && SameLooks(memory, looked)
    ensures Astray(first, memory, p + Base(r)) <==> Astray(was, looked, p + Base(r))
    ensures Translate(was, p + Base(r)) == Translate(first, p + Base(r))
  {
    var k: int := GigOf(p + Base(r));
    assert k in was <==> k in first;
    if GiantAt(was, k) {
      var s := SpotOf(was[k].giant, p + Base(r));
      assert LooksLikeTable(looked, s) == LooksLikeTable(memory, s);
    }
  }

  lemma AdvanceRight(r: Range, first: Gigs, memory: Words, was: Gigs, looked: Words, gigs: Gigs, p: nat, p': nat)
    requires r.start <= p < r.end && Progress(r, first, memory, was, p, None) && SameLooks(memory, looked)
    requires p' == p + LeafSize(r, p) && !Misses(r, was, looked, p) && Stepped(r, was, looked, gigs, p)
    ensures Well(r, first, memory, gigs, p')
  {
    assert Mapped(first, gigs, Base(r), r.start, p', FlagsFor(r.kind)) by {
      MappedOn(first, was, gigs, Base(r), r.start, p, p', FlagsFor(r.kind));
    }
    assert NoneLost(r, first, memory, p') by {
      if FirstInGig(r, p) {
        FreshSlot(r, first, memory, was, looked, p);
      }
      NoneLostOn(r, first, memory, p);
    }
    assert Touched(r, p') == GigOf(p' + Base(r)) ==> !GiantAt(gigs, GigOf(p' + Base(r))) by {
      AdvanceTouched(r, p);
    }
  }

  /** Within a step only its first page can be lost. */
  lemma NoneLostOn(r: Range, first: Gigs, memory: Words, p: nat)
    requires r.start <= p < r.end && NoneLost(r, first, memory, p) && !Loses(r, first, memory, p)
    ensures NoneLost(r, first, memory, p + LeafSize(r, p))
  {
    forall q: nat | p < q < p + LeafSize(r, p)
      ensures !FirstInGig(r, q)
    {
      NoStartInside(p, LeafSize(r, p), q);
    }
  }

  /** A step that goes astray is harmless if the leaf in its way is right, and loses its first page
      if not. */
  lemma AdvanceAstray(r: Range, first: Gigs, memory: Words, was: Gigs, looked: Words,
                      p: nat) returns (lost: Option<nat>)
    requires r.start <= p < r.end <= UPPER_HALF && Progress(r, first, memory, was, p, None) && SameLooks(memory, looked)
    requires Misses(r, was, looked, p) && SameAbove(first, was, Touched(r, p + SLOTS))
    ensures Progress(r, first, memory, was, p + SLOTS, lost)
  {
    if FirstInGig(r, p) {
      FreshSlot(r, first, memory, was, looked, p);
    }
    if Loses(r, first, memory, p) {
      lost := Some(p);
    } else {
      lost := None;
      AdvanceHarmless(r, first, memory, was, p);
    }
  }

  lemma AdvanceHarmless(r: Range, first: Gigs, memory: Words, was: Gigs, p: nat)
    requires r.start <= p < r.end <= UPPER_HALF && Well(r, first, memory, was, p)
    requires LeafSize(r, p) == SLOTS && GiantAt(was, GigOf(p + Base(r))) && Right(r, was, p)
    requires !Loses(r, first, memory, p)
    ensures Well(r, first, memory, was, p + SLOTS)
  {
    AdvanceTouched(r, p);
    RightOn(r, was, p);
    MappedOn(first, was, was, Base(r), r.start, p, p + SLOTS, FlagsFor(r.kind));
    NoneLostOn(r, first, memory, p);
  }

  /** A 1 GiB leaf that is right for one page is right for its whole gigabyte. */
  lemma RightOn(r: Range, gigs: Gigs, p: nat)
    requires p < r.end <= UPPER_HALF && LeafSize(r, p) == SLOTS
    requires GiantAt(gigs, GigOf(p + Base(r))) && Right(r, gigs, p)
    ensures Mapped(gigs, gigs, Base(r), p, p + SLOTS, FlagsFor(r.kind))
    ensures GigOf(p + SLOTS + Base(r)) == GigOf(p + Base(r)) ==> Right(r, gigs, p + SLOTS)
  {
    var base, flags := Base(r), FlagsFor(r.kind);
    FlatMapped(gigs, base, flags, p);
    if GigOf(p + SLOTS + base) == GigOf(p + base) {
      FlatLeads(gigs, base, flags, p, p + SLOTS);
    }
  }

  /** The image of `p` leads to `p`. */
  predicate Leads(gigs: Gigs, base: nat, flags: bv64, p: nat) {
    Translate(gigs, p + base) == Some(Place(p, flags))
  }

  lemma FlatMapped(gigs: Gigs, base: nat, flags: bv64, p: nat)
    requires base % GIG == 0 && p < UPPER_HALF && p % SLOTS == 0
    requires GiantAt(gigs, GigOf(p + base)) && Leads(gigs, base, flags, p)
    ensures Mapped(gigs, gigs, base, p, p + SLOTS, flags)
  {
    forall q: nat | p <= q < p + SLOTS
      ensures Leads(gigs, base, flags, q)
    {
      BigBlock(base, p, q + base);
      FlatLeads(gigs, base, flags, p, q);
    }
    AlreadyMapped(gigs, base, flags, p, p + SLOTS);
  }

  /** Under a 1 GiB leaf a 2 MiB step does its work exactly when it does not go astray or the leaf
      leads there already. */
  lemma BigUnderGiant(gigs: Gigs, gigs': Gigs, memory: Words, base: nat, p: nat, flags: bv64)
    requires base % GIG == 0 && p < UPPER_HALF && p % SLOTS == 0 && GiantAt(gigs, GigOf(p + base))
    requires if Astray(gigs, memory, p + base) then gigs' == gigs
             else Mapped(gigs, gigs', base, p, p + SLOTS, flags)
    ensures Mapped(gigs, gigs', base, p, p + SLOTS, flags) <==>
            !Astray(gigs, memory, p + base) || Leads(gigs, base, flags, p)
  {
    if Leads(gigs, base, flags, p) {
      FlatMapped(gigs, base, flags, p);
    }
  }

  lemma AlreadyMapped(gigs: Gigs, base: nat, flags: bv64, lo: nat, hi: nat)
    requires forall q: nat :: lo <= q < hi ==> Leads(gigs, base, flags, q)
    ensures Mapped(gigs, gigs, base, lo, hi, flags)
  {
    forall v: nat
      ensures Translate(gigs, v) ==
              if lo + base <= v < hi + base then Some(Place(v - base, flags)) else Translate(gigs, v)
    {
      if lo + base <= v < hi + base {
        assert Leads(gigs, base, flags, v - base);
      }
    }
  }

  lemma FlatLeads(gigs: Gigs, base: nat, flags: bv64, p: nat, q: nat)
    requires base % GIG == 0 && p < UPPER_HALF && GigOf(q + base) == GigOf(p + base)
    requires GiantAt(gigs, GigOf(p + base)) && Leads(gigs, base, flags, p)
    ensures Leads(gigs, base, flags, q)
  {
    var v, w := p + base, q + base;
    var start: nat := p / GIG * GIG;
    assert p == start + MidOf(v) * SLOTS + PageOf(v) && q == start + MidOf(w) * SLOTS + PageOf(w) by {
      SameIndices(p, base);
      SameIndices(q, base);
    }
    FlatGiant(gigs[GigOf(v)].giant, start, p, MidOf(v), PageOf(v), q, MidOf(w), PageOf(w));
  }

  lemma FlatGiant(e: LargeWord, start: nat, p: nat, m: nat, i: nat, q: nat, m': nat, i': nat)
    requires start < GIG * GIG && start % GIG == 0 && m < SLOTS && i < SLOTS && m' < SLOTS && i' < SLOTS
    requires p == start + m * SLOTS + i && q == start + m' * SLOTS + i'
    requires ThroughGiant(e, m, i).address == Address(p)
    ensures ThroughGiant(e, m', i').address == Address(q)
  {
    GiantIsFlat(e, start, m, i, m', i');
  }

  /** The page and its image have the same place in their gigabyte. */
  lemma SameIndices(p: nat, base: nat)
    requires base % GIG == 0
    ensures GigOf(p + base) == p / GIG + base / GIG
    ensures p == p / GIG * GIG + MidOf(p + base) * SLOTS + PageOf(p + base)
  {
    Digits(p + base);
    GigAdds(p, base);
  }
}
