/** What the kernel's own page tables translate, with 1 GiB, 2 MiB and 4 KiB leaves. Leaves are the
    words in memory; the tables that hold them are modelled as nested values, and which frames
    those occupy is not. Pages are numbered by their four table indices together.
  */
module KernelMap {
  import opened Outcomes
  import opened PageEntries

  type Pages = map<int, SmallWord>

  datatype Mid = Big(big: LargeWord) | Tab(pages: Pages)

  type Mids = map<int, Mid>

  datatype Gig = Giant(giant: LargeWord) | Dir(mids: Mids)

  type Gigs = map<int, Gig>

  function GigOf(v: nat): nat {
    v / GIG
  }

  function MidOf(v: nat): (m: nat)
    ensures m < SLOTS
  {
    v / SLOTS % SLOTS
  }

  function PageOf(v: nat): (i: nat)
    ensures i < SLOTS
  {
    v % SLOTS
  }

  lemma Digits(v: nat)
    ensures v == GigOf(v) * GIG + MidOf(v) * SLOTS + PageOf(v)
    ensures v % GIG == MidOf(v) * SLOTS + PageOf(v)
  {
    assert v / SLOTS / SLOTS == v / GIG;
  }

  lemma SameDigits(v: nat, w: nat)
    ensures v == w <==> GigOf(v) == GigOf(w) && MidOf(v) == MidOf(w) && PageOf(v) == PageOf(w)
  {
    Digits(v);
    Digits(w);
  }

  // ---- translation --------------------------------------------------------------------------------------

  function ThroughMid(m: Mid, v: nat): Option<Target> {
    match m
    case Big(e) => Some(ThroughBig(e, PageOf(v)))
    case Tab(pages) => if PageOf(v) in pages then Some(ThroughSmall(pages[PageOf(v)])) else None
  }

  function ThroughGig(g: Gig, v: nat): Option<Target> {
    match g
    case Giant(e) => Some(ThroughGiant(e, MidOf(v), PageOf(v)))
    case Dir(mids) => if MidOf(v) in mids then ThroughMid(mids[MidOf(v)], v) else None
  }

  function Translate(gigs: Gigs, v: nat): Option<Target> {
    if GigOf(v) in gigs then ThroughGig(gigs[GigOf(v)], v) else None
  }

  /** The 4 KiB word of a page, once every leaf above it has been split. */
  function WordAt(gigs: Gigs, v: nat): Option<bv64> {
    if GigOf(v) in gigs then WordIn(gigs[GigOf(v)], v) else None
  }

  function WordIn(g: Gig, v: nat): Option<bv64> {
    match g
    case Giant(e) => Some(PartOfBig(PartOfGiant(e, MidOf(v)), PageOf(v)))
    case Dir(mids) => if MidOf(v) in mids then WordInMid(mids[MidOf(v)], v) else None
  }

  function WordInMid(m: Mid, v: nat): Option<bv64> {
    match m
    case Big(e) => Some(PartOfBig(e, PageOf(v)))
    case Tab(pages) => if PageOf(v) in pages then Some(pages[PageOf(v)]) else None
  }

  /** No translation changes. */
  ghost predicate SameMap(gigs: Gigs, gigs': Gigs) {
    forall q: nat {:trigger Translate(gigs', q)} :: Translate(gigs', q) == Translate(gigs, q)
  }

  /** The page `v` leads to `t`, all others where they did. */
  ghost predicate PageMapped(gigs: Gigs, gigs': Gigs, v: nat, t: Target) {
    forall q: nat {:trigger Translate(gigs', q)} ::
        Translate(gigs', q) == if q == v then Some(t) else Translate(gigs, q)
  }

  /** Where a mapping of the physical page `p` leads. */
  function Place(p: nat, flags: bv64): Target {
    Target(Address(p), AttributesSmall(flags))
  }

  /** The pages `lo + base .. hi + base` lead to the physical pages `lo .. hi`, all others where
      they did: what mapping the range page by page comes to. */
  ghost predicate Mapped(gigs: Gigs, gigs': Gigs, base: nat, lo: nat, hi: nat, flags: bv64) {
    forall q: nat {:trigger Translate(gigs', q)} ::
      Translate(gigs', q) == if lo + base <= q < hi + base then Some(Place(q - base, flags)) else Translate(gigs, q)
  }

  /** Nothing outside those pages changes. */
  ghost predicate OnlyIn(gigs: Gigs, gigs': Gigs, base: nat, lo: nat, hi: nat) {
    forall q: nat {:trigger Translate(gigs', q)} ::
      !(lo + base <= q < hi + base) ==> Translate(gigs', q) == Translate(gigs, q)
  }

  lemma MappedOn(a: Gigs, b: Gigs, c: Gigs, base: nat, lo: nat, mid: nat, hi: nat, flags: bv64)
    requires lo <= mid <= hi && Mapped(a, b, base, lo, mid, flags) && Mapped(b, c, base, mid, hi, flags)
    ensures Mapped(a, c, base, lo, hi, flags)
  {
    forall q: nat
      ensures Translate(c, q) == if lo + base <= q < hi + base then Some(Place(q - base, flags)) else Translate(a, q)
    {
      assert Translate(b, q) == if lo + base <= q < mid + base then Some(Place(q - base, flags)) else Translate(a, q);
    }
  }

  lemma OnlyInOn(a: Gigs, b: Gigs, c: Gigs, base: nat, lo: nat, mid: nat, hi: nat, end: nat)
    requires lo <= mid <= hi <= end && OnlyIn(a, b, base, lo, mid) && OnlyIn(b, c, base, mid, hi)
    ensures OnlyIn(a, c, base, lo, end)
  {
    forall q: nat | !(lo + base <= q < end + base)
      ensures Translate(c, q) == Translate(a, q)
    {
      assert Translate(b, q) == Translate(a, q);
    }
  }

  lemma MappedOnlyIn(a: Gigs, b: Gigs, base: nat, lo: nat, hi: nat, flags: bv64)
    requires Mapped(a, b, base, lo, hi, flags)
    ensures OnlyIn(a, b, base, lo, hi)
  {
  }

  lemma SameTwice(a: Gigs, b: Gigs, c: Gigs)
    requires SameMap(a, b) && SameMap(b, c)
    ensures SameMap(a, c)
  {
    forall q: nat
      ensures Translate(c, q) == Translate(a, q)
    {
      assert Translate(b, q) == Translate(a, q);
    }
  }

  lemma SameThenPage(a: Gigs, b: Gigs, c: Gigs, v: nat, t: Target)
    requires SameMap(a, b) && PageMapped(b, c, v, t)
    ensures PageMapped(a, c, v, t)
  {
    forall q: nat
      ensures Translate(c, q) == if q == v then Some(t) else Translate(a, q)
    {
      assert Translate(b, q) == Translate(a, q);
    }
  }

  lemma SameThenMapped(a: Gigs, b: Gigs, c: Gigs, base: nat, lo: nat, hi: nat, flags: bv64)
    requires SameMap(a, b) && Mapped(b, c, base, lo, hi, flags)
    ensures Mapped(a, c, base, lo, hi, flags)
  {
    forall q: nat
      ensures Translate(c, q) == if lo + base <= q < hi + base then Some(Place(q - base, flags)) else Translate(a, q)
    {
      assert Translate(b, q) == Translate(a, q);
    }
  }

  lemma SameThenOnly(a: Gigs, b: Gigs, c: Gigs, base: nat, lo: nat, hi: nat)
    requires SameMap(a, b) && OnlyIn(b, c, base, lo, hi)
    ensures OnlyIn(a, c, base, lo, hi)
  {
    forall q: nat | !(lo + base <= q < hi + base)
      ensures Translate(c, q) == Translate(a, q)
    {
      assert Translate(b, q) == Translate(a, q);
    }
  }

  lemma PageIsRange(gigs: Gigs, gigs': Gigs, base: nat, p: nat, flags: bv64)
    requires PageMapped(gigs, gigs', p + base, Place(p, flags))
    ensures Mapped(gigs, gigs', base, p, p + 1, flags)
  {
  }

  // ---- writing one leaf ---------------------------------------------------------------------------------

  predicate DirAt(gigs: Gigs, v: nat) {
    GigOf(v) in gigs && gigs[GigOf(v)].Dir?
  }

  predicate TabAt(gigs: Gigs, v: nat) {
    DirAt(gigs, v) && MidOf(v) in gigs[GigOf(v)].mids && gigs[GigOf(v)].mids[MidOf(v)].Tab?
  }

  function WithPage(gigs: Gigs, v: nat, e: SmallWord): Gigs
    requires TabAt(gigs, v)
  {
    var mids := gigs[GigOf(v)].mids;
    var pages := mids[MidOf(v)].pages;
    gigs[GigOf(v) := Dir(mids[MidOf(v) := Tab(pages[PageOf(v) := e])])]
  }

  function WithBig(gigs: Gigs, v: nat, e: LargeWord): Gigs
    requires DirAt(gigs, v)
  {
    gigs[GigOf(v) := Dir(gigs[GigOf(v)].mids[MidOf(v) := Big(e)])]
  }

  lemma PageSet(gigs: Gigs, v: nat, e: SmallWord)
    requires TabAt(gigs, v)
    ensures PageMapped(gigs, WithPage(gigs, v, e), v, ThroughSmall(e))
  {
    var gigs' := WithPage(gigs, v, e);
    forall q: nat
      ensures Translate(gigs', q) == if q == v then Some(ThroughSmall(e)) else Translate(gigs, q)
    {
      SameDigits(q, v);
    }
  }

  lemma BigSet(gigs: Gigs, base: nat, p: nat, flags: bv64)
    requires base % GIG == 0 && p < GIG * GIG && p % SLOTS == 0 && LeafFlags(flags) && DirAt(gigs, p + base)
    ensures Mapped(gigs, WithBig(gigs, p + base, LargeLeaf(Address(p), flags)), base, p, p + SLOTS, flags)
  {
    var e := LargeLeaf(Address(p), flags);
    var gigs' := WithBig(gigs, p + base, e);
    forall q: nat
      ensures Translate(gigs', q) ==
              if p + base <= q < p + SLOTS + base then Some(Place(q - base, flags)) else Translate(gigs, q)
    {
      BigBlock(base, p, q);
      if p + base <= q < p + SLOTS + base {
        BigLeafLeads(p, flags, PageOf(q));
      }
    }
  }

  lemma BigBlock(base: nat, p: nat, q: nat)
    requires base % GIG == 0 && p % SLOTS == 0
    ensures p + base <= q < p + SLOTS + base <==> GigOf(q) == GigOf(p + base) && MidOf(q) == MidOf(p + base)
    ensures p + base <= q < p + SLOTS + base ==> q - base == p + PageOf(q)
  {
    var v := p + base;
    assert v % 512 == 0;
    SameBlock(q, v);
    assert p + base <= q < p + SLOTS + base ==> q == v + q % 512;
  }

  lemma SameBlock(q: nat, v: nat)
    requires v % 512 == 0
    ensures v <= q < v + 512 <==> q / 0x4_0000 == v / 0x4_0000 && q / 512 % 512 == v / 512 % 512
    ensures v <= q < v + 512 ==> q == v + q % 512
  {
    var a, b := q / 512, v / 512;
    assert q / 0x4_0000 == a / 512 && v / 0x4_0000 == b / 512;
    assert a == b <==> a / 512 == b / 512 && a % 512 == b % 512;
    assert v <= q < v + 512 <==> a == b;
  }

  lemma GiantSet(gigs: Gigs, base: nat, p: nat, flags: bv64)
    requires base % GIG == 0 && p < GIG * GIG && p % GIG == 0 && LeafFlags(flags)
    ensures Mapped(gigs, gigs[GigOf(p + base) := Giant(LargeLeaf(Address(p), flags))], base, p, p + GIG, flags)
  {
    var e := LargeLeaf(Address(p), flags);
    var gigs' := gigs[GigOf(p + base) := Giant(e)];
    forall q: nat
      ensures Translate(gigs', q) ==
              if p + base <= q < p + GIG + base then Some(Place(q - base, flags)) else Translate(gigs, q)
    {
      GiantBlock(base, p, q);
      if p + base <= q < p + GIG + base {
        GiantLeafLeads(p, flags, MidOf(q), PageOf(q));
      }
    }
  }

  lemma GiantBlock(base: nat, p: nat, q: nat)
    requires base % GIG == 0 && p % GIG == 0
    ensures p + base <= q < p + GIG + base <==> GigOf(q) == GigOf(p + base)
    ensures p + base <= q < p + GIG + base ==> q - base == p + MidOf(q) * SLOTS + PageOf(q)
  {
    Digits(q);
    Quotient(p + base, p / GIG + base / GIG);
  }

  lemma Quotient(v: nat, k: nat)
    requires v == k * GIG
    ensures GigOf(v) == k
  {
  }

  // ---- splitting ----------------------------------------------------------------------------------------

  /** `pages` holds the 512 parts of a 2 MiB leaf. */
  ghost predicate BigSplit(e: LargeWord, pages: Pages) {
    forall i: nat {:trigger i in pages} :: i < SLOTS ==> i in pages && pages[i] == PartOfBig(e, i)
  }

  /** `mids` holds the 512 parts of a 1 GiB leaf. */
  ghost predicate GiantSplit(e: LargeWord, mids: Mids) {
    forall i: nat {:trigger i in mids} :: i < SLOTS ==> i in mids && mids[i] == Big(PartOfGiant(e, i))
  }

  lemma SplitBigSame(e: LargeWord, pages: Pages, v: nat)
    requires BigSplit(e, pages)
    ensures ThroughMid(Tab(pages), v) == ThroughMid(Big(e), v)
    ensures WordInMid(Tab(pages), v) == WordInMid(Big(e), v)
  {
    BigPart(e, PageOf(v));
    assert PageOf(v) in pages;
  }

  lemma SplitGiantSame(e: LargeWord, mids: Mids, v: nat)
    requires GiantSplit(e, mids)
    ensures ThroughGig(Dir(mids), v) == ThroughGig(Giant(e), v)
    ensures WordIn(Dir(mids), v) == WordIn(Giant(e), v)
  {
    GiantPart(e, MidOf(v), PageOf(v));
    assert MidOf(v) in mids;
  }

  /** Two slots with the same pages behind them. */
  ghost predicate SameGig(g: Gig, g': Gig) {
    forall q: nat {:trigger ThroughGig(g', q)} {:trigger WordIn(g', q)} ::
      ThroughGig(g', q) == ThroughGig(g, q) && WordIn(g', q) == WordIn(g, q)
  }

  lemma GigSame(gigs: Gigs, k: nat, g: Gig)
    requires SameGig(if k in gigs then gigs[k] else Dir(map[]), g)
    ensures SameMap(gigs, gigs[k := g]) && SameWords(gigs, gigs[k := g])
  {
    forall q: nat
      ensures Translate(gigs[k := g], q) == Translate(gigs, q) && WordAt(gigs[k := g], q) == WordAt(gigs, q)
    {
      assert k in gigs ==> ThroughGig(g, q) == ThroughGig(gigs[k], q);
      assert k !in gigs ==> ThroughGig(g, q) == ThroughGig(Dir(map[]), q);
    }
  }

  ghost predicate SameWords(gigs: Gigs, gigs': Gigs) {
    forall q: nat {:trigger WordAt(gigs', q)} :: WordAt(gigs', q) == WordAt(gigs, q)
  }

  lemma GiantSplits(e: LargeWord, mids: Mids)
    requires GiantSplit(e, mids)
    ensures SameGig(Giant(e), Dir(mids))
  {
    forall q: nat
      ensures ThroughGig(Dir(mids), q) == ThroughGig(Giant(e), q) && WordIn(Dir(mids), q) == WordIn(Giant(e), q)
    {
      SplitGiantSame(e, mids, q);
    }
  }

  lemma TabAdded(mids: Mids, m: nat, pages: Pages)
    requires m in mids ==> mids[m].Big? && BigSplit(mids[m].big, pages)
    requires m !in mids ==> pages == map[]
    ensures SameGig(Dir(mids), Dir(mids[m := Tab(pages)]))
  {
    var g := Dir(mids[m := Tab(pages)]);
    forall q: nat
      ensures ThroughGig(g, q) == ThroughGig(Dir(mids), q) && WordIn(g, q) == WordIn(Dir(mids), q)
    {
      if m in mids {
        SplitBigSame(mids[m].big, pages, q);
      }
    }
  }

  // ---- 1 GiB leaves -------------------------------------------------------------------------------------

  predicate GiantAt(gigs: Gigs, k: int) {
    k in gigs && gigs[k].Giant?
  }

  /** The 1 GiB leaves of `gigs'` were there before, unchanged. */
  ghost predicate NoNewGiants(gigs: Gigs, gigs': Gigs) {
    forall k {:trigger GiantAt(gigs', k)} :: GiantAt(gigs', k) ==> GiantAt(gigs, k) && gigs'[k] == gigs[k]
  }

  lemma GiantsTwice(a: Gigs, b: Gigs, c: Gigs)
    requires NoNewGiants(a, b) && NoNewGiants(b, c)
    ensures NoNewGiants(a, c)
  {
    forall k | GiantAt(c, k)
      ensures GiantAt(a, k) && c[k] == a[k]
    {
      assert GiantAt(b, k);
    }
  }
}
