/** The words of the kernel's page tables. A leaf entry holds a physical address and attributes;
    in a 4 KiB leaf the PAT bit sits where larger leaves keep the bit that marks them as leaves,
    so splitting a leaf re-encodes its word.
  */
module PageEntries {
  const PRESENT: bv64 := 0x1
  const WRITABLE: bv64 := 0x2
  const USER: bv64 := 0x4
  const PWT: bv64 := 0x8
  const PCD: bv64 := 0x10
  const HUGE: bv64 := 0x80
  const PAT_4K: bv64 := 0x80
  const PAT: bv64 := 0x1000
  const NO_EXECUTE: bv64 := 0x8000_0000_0000_0000
  const LEAF_ATTRIBUTES: bv64 := 0x8000_0000_0000_001F
  const MASK_4K: bv64 := 0x000f_ffff_ffff_f000
  const MASK_2M: bv64 := 0x000f_ffff_ffe0_0000
  const MASK_1G: bv64 := 0x000f_ffff_c000_0000

  const SLOTS: nat := 512
  const GIG: nat := 0x4_0000

  /** A present 1 GiB or 2 MiB leaf, and a present 4 KiB one. */
  type LargeWord = e: bv64 | e & 0x81 == 0x81 witness 0x81
  type SmallWord = e: bv64 | e & 0x1 == 0x1 witness 0x1

  /** Nine bits. */
  type Index = d: bv64 | d & 0xffff_ffff_ffff_fe00 == 0

  /** Everything but the address: permissions, caching and the PAT bit. */
  datatype Attributes = Attributes(bits: bv64, pat: bool)

  function AttributesLarge(e: bv64): Attributes {
    Attributes(e & LEAF_ATTRIBUTES, e & PAT != 0)
  }

  function AttributesSmall(e: bv64): Attributes {
    Attributes(e & LEAF_ATTRIBUTES, e & PAT_4K != 0)
  }

  /** `inherited_leaf_flags`. */
  function Inherited(e: bv64, toSmall: bool): bv64 {
    (e & LEAF_ATTRIBUTES) | if toSmall then (if e & PAT != 0 then PAT_4K else 0) else e & PAT
  }

  // ---- numbers as bits ----------------------------------------------------------------------------------

  /** A number in binary. */
  function Binary(i: nat): bv64 {
    if i == 0 then 0 else (Binary(i / 2) << 1) | (if i % 2 == 1 then 1 else 0)
  }

  /** A table index as a word. */
  function Digit(i: nat): Index
    requires i < SLOTS
  {
    Binary(i) & 0x1ff
  }

  /** A page number as a word: nine bits for each table index. */
  function Bits(n: nat): bv64 {
    if n == 0 then 0 else (Bits(n / SLOTS) << 9) | Digit(n % SLOTS)
  }

  /** The address of a page. */
  function Address(p: nat): bv64 {
    Bits(p) << 12
  }

  lemma EvenNext(h: bv64)
    ensures (h << 1) | 1 == ((h << 1) | 0) + 1
  {
  }

  lemma OddNext(h: bv64)
    ensures ((h + 1) << 1) | 0 == ((h << 1) | 1) + 1
  {
  }

  lemma BinaryHalf(i: nat)
    ensures Binary(i) == (Binary(i / 2) << 1) | (if i % 2 == 1 then 1 else 0)
  {
  }

  /** Counting up is counting up. */
  lemma {:induction false} BinaryNext(i: nat)
    ensures Binary(i + 1) == Binary(i) + 1
  {
    var x := i / 2;
    BinaryHalf(i);
    BinaryHalf(i + 1);
    if i == 2 * x {
      BinaryEven(i, x);
    } else {
      BinaryNext(x);
      BinaryOdd(i, x);
    }
  }

  lemma BinaryEven(i: nat, x: nat)
    requires i == 2 * x
    ensures Binary(i + 1) == Binary(i) + 1
  {
    assert i / 2 == x && (i + 1) / 2 == x;
    EvenNext(Binary(x));
  }

  lemma BinaryOdd(i: nat, x: nat)
    requires i == 2 * x + 1 && Binary(x + 1) == Binary(x) + 1
    ensures Binary(i + 1) == Binary(i) + 1
  {
    var next := i + 1;
    BinaryHalf(i);
    BinaryHalf(next);
    assert i / 2 == x && i % 2 == 1 && next / 2 == x + 1 && next % 2 == 0;
    OddNext(Binary(x));
  }

  lemma Narrow(i: nat, mask: bv64)
    requires Binary(i / 2) & mask == 0
    ensures Binary(i) & (mask << 1) == 0
  {
    BinaryHalf(i);
    NarrowBits(Binary(i / 2), mask);
  }

  lemma NarrowBits(h: bv64, mask: bv64)
    requires h & mask == 0
    ensures ((h << 1) | 0) & (mask << 1) == 0 && ((h << 1) | 1) & (mask << 1) == 0
  {
  }

  /** Two to the `k`, and the bits from the `k`-th on. */
  function Two(k: nat): nat {
    if k == 0 then 1 else 2 * Two(k - 1)
  }

  function From(k: nat): bv64 {
    if k == 0 then 0xffff_ffff_ffff_ffff else From(k - 1) << 1
  }

  lemma {:induction false} BinaryFits(i: nat, k: nat)
    requires i < Two(k)
    ensures Binary(i) & From(k) == 0
  {
    if k > 0 {
      BinaryFits(i / 2, k - 1);
      Narrow(i, From(k - 1));
    }
  }

  lemma FromNine()
    ensures Two(9) == SLOTS && From(9) == 0xffff_ffff_ffff_fe00
  {
    assert Two(3) == 8 && Two(6) == 64;
    assert From(3) == 0xffff_ffff_ffff_fff8;
    assert From(6) == 0xffff_ffff_ffff_ffc0;
  }

  /** A table index fits nine bits. */
  lemma IndexFits(i: nat)
    requires i < SLOTS
    ensures Binary(i) & 0xffff_ffff_ffff_fe00 == 0 && Digit(i) == Binary(i)
  {
    FromNine();
    BinaryFits(i, 9);
    OnlyNine(Binary(i));
  }

  lemma OnlyNine(b: bv64)
    requires b & 0xffff_ffff_ffff_fe00 == 0
    ensures b & 0x1ff == b
  {
  }

  lemma LastIndex()
    ensures Digit(511) == 0x1ff
  {
    BinaryHalf(1);
    BinaryHalf(3);
    BinaryHalf(7);
    BinaryHalf(15);
    BinaryHalf(31);
    BinaryHalf(63);
    BinaryHalf(127);
    BinaryHalf(255);
    BinaryHalf(511);
  }

  lemma NineNext(y: bv64, d: bv64, e: bv64)
    requires d & 0xffff_ffff_ffff_fe00 == 0 && e & 0xffff_ffff_ffff_fe00 == 0 && e == d + 1
    ensures (y << 9) | e == ((y << 9) | d) + 1
  {
  }

  lemma NineCarries(y: bv64)
    ensures (y + 1) << 9 == ((y << 9) | 0x1ff) + 1
  {
  }

  lemma DigitNext(i: nat)
    requires i + 1 < SLOTS
    ensures Digit(i + 1) == Digit(i) + 1
    ensures Digit(i) & 0xffff_ffff_ffff_fe00 == 0 && Digit(i + 1) & 0xffff_ffff_ffff_fe00 == 0
  {
    BinaryNext(i);
    IndexFits(i);
    IndexFits(i + 1);
  }

  lemma BitsInside(n: nat, x: nat, i: nat)
    requires i + 1 < SLOTS && n == SLOTS * x + i
    ensures Bits(n + 1) == Bits(n) + 1
  {
    BitsStep(n, x, i);
    BitsStep(n + 1, x, i + 1);
    DigitNext(i);
    NineNext(Bits(x), Digit(i), Digit(i + 1));
  }

  lemma BitsCarry(n: nat, x: nat)
    requires n == SLOTS * x + 511 && Bits(x + 1) == Bits(x) + 1
    ensures Bits(n + 1) == Bits(n) + 1
  {
    BitsStep(n, x, 511);
    BitsAligned(n + 1, x + 1);
    LastIndex();
    NineCarries(Bits(x));
  }

  /** The next page number is the next word. */
  lemma {:induction false} BitsNext(n: nat)
    ensures Bits(n + 1) == Bits(n) + 1
  {
    var (x, i) := (n / SLOTS, n % SLOTS);
    if i + 1 < SLOTS {
      BitsInside(n, x, i);
    } else {
      BitsNext(x);
      BitsCarry(n, x);
    }
  }

  /** Page `p` lies at `p` times 4096: the next page is 4096 further on. */
  lemma AddressNext(p: nat)
    ensures Address(0) == 0 && Address(p + 1) == Address(p) + 0x1000
  {
    BitsNext(p);
    PageFurther(Bits(p));
  }

  lemma PageFurther(b: bv64)
    ensures (b + 1) << 12 == (b << 12) + 0x1000
  {
  }

  lemma BitsStep(n: nat, x: nat, i: nat)
    requires i < SLOTS && n == SLOTS * x + i
    ensures Bits(n) == (Bits(x) << 9) | Digit(i)
  {
    assert n / SLOTS == x && n % SLOTS == i;
    if n == 0 {
      assert Digit(0) == 0;
    }
  }

  lemma BitsAligned(n: nat, x: nat)
    requires n == SLOTS * x
    ensures Bits(n) == Bits(x) << 9
  {
    BitsStep(n, x, 0);
    assert Digit(0) == 0;
  }

  /** Pages below 2^48 bytes. */
  lemma BitsBound(p: nat)
    requires p < GIG * GIG
    ensures Bits(p) & 0xffff_fff0_0000_0000 == 0
  {
    var a := p / SLOTS;
    var b := a / SLOTS;
    var c := b / SLOTS;
    assert c / SLOTS == 0;
    BitsStep(c, 0, c);
    BitsStep(b, c, b % SLOTS);
    BitsStep(a, b, a % SLOTS);
    BitsStep(p, a, p % SLOTS);
  }

  /** Page `i` of the aligned 2 MiB from page `p` on. */
  lemma AddressInBig(p: nat, i: nat)
    requires p < GIG * GIG && p % SLOTS == 0 && i < SLOTS
    ensures Address(p + i) == Address(p) | (Digit(i) << 12)
    ensures Address(p) & 0xffff_0000_001f_ffff == 0
  {
    var x := p / SLOTS;
    BitsStep(p + i, x, i);
    BitsAligned(p, x);
    BigBits(Bits(x), Digit(i));
    BitsBound(p);
  }

  lemma BigBits(x: bv64, d: bv64)
    ensures ((x << 9) | d) << 12 == ((x << 9) << 12) | (d << 12)
    ensures (x << 9) & 0xffff_fff0_0000_0000 == 0 ==> ((x << 9) << 12) & 0xffff_0000_001f_ffff == 0
  {
  }

  /** Page `i` of 2 MiB part `m` of the aligned gigabyte from page `p` on. */
  lemma AddressInGiant(p: nat, m: nat, i: nat)
    requires p % GIG == 0 && m < SLOTS && i < SLOTS
    ensures Address(p + m * SLOTS + i) == InGiant(Address(p), Digit(m), Digit(i))
  {
    var x := p / GIG;
    GiantAddress(p + m * SLOTS + i, p, SLOTS * x + m, SLOTS * x, x, m, i);
  }

  /** The address of a page by its gigabyte and its two indices there. */
  function InGiant(base: bv64, m: Index, i: Index): bv64 {
    base | (m << 21) | (i << 12)
  }

  lemma GiantAddress(n: nat, p: nat, z: nat, y: nat, x: nat, m: nat, i: nat)
    requires m < SLOTS && i < SLOTS
    requires n == SLOTS * z + i && z == SLOTS * x + m && p == SLOTS * y && y == SLOTS * x
    ensures Address(n) == InGiant(Address(p), Digit(m), Digit(i))
  {
    BitsTwice(n, z, x, m, i);
    BitsAlignedTwice(p, y, x);
    GiantBits(Bits(x), Digit(m), Digit(i));
  }

  lemma AddressOfGiant(p: nat)
    requires p < GIG * GIG && p % GIG == 0
    ensures Address(p) & 0xffff_0000_3fff_ffff == 0
  {
    var x := p / GIG;
    var y: nat := SLOTS * x;
    BitsAlignedTwice(p, y, x);
    BitsBound(p);
    GiantBitsBound(Bits(x), Bits(p));
  }

  lemma BitsTwice(n: nat, z: nat, x: nat, m: nat, i: nat)
    requires m < SLOTS && i < SLOTS && z == SLOTS * x + m && n == SLOTS * z + i
    ensures Bits(n) == (((Bits(x) << 9) | Digit(m)) << 9) | Digit(i)
  {
    BitsStep(z, x, m);
    BitsStep(n, z, i);
  }

  lemma BitsAlignedTwice(n: nat, y: nat, x: nat)
    requires y == SLOTS * x && n == SLOTS * y
    ensures Bits(n) == (Bits(x) << 9) << 9
  {
    BitsAligned(y, x);
    BitsAligned(n, y);
  }

  lemma GiantBits(x: bv64, m: bv64, i: bv64)
    ensures ((((x << 9) | m) << 9) | i) << 12 == (((x << 9) << 9) << 12) | (m << 21) | (i << 12)
  {
  }

  lemma GiantBitsBound(x: bv64, p: bv64)
    requires p == (x << 9) << 9 && p & 0xffff_fff0_0000_0000 == 0
    ensures (p << 12) & 0xffff_0000_3fff_ffff == 0
  {
  }

  // ---- where an address leads ---------------------------------------------------------------------------

  /** A physical address, and the attributes of the access. */
  datatype Target = Target(address: bv64, attributes: Attributes)

  /** Page `i` of 2 MiB part `m` of a 1 GiB leaf. */
  function ThroughGiant(e: LargeWord, m: nat, i: nat): Target
    requires m < SLOTS && i < SLOTS
  {
    Target(InGiant(e & MASK_1G, Digit(m), Digit(i)), AttributesLarge(e))
  }

  /** Page `i` of a 2 MiB leaf. */
  function ThroughBig(e: LargeWord, i: nat): Target
    requires i < SLOTS
  {
    Target((e & MASK_2M) | (Digit(i) << 12), AttributesLarge(e))
  }

  function ThroughSmall(e: SmallWord): Target {
    Target(e & MASK_4K, AttributesSmall(e))
  }

  // ---- splitting ----------------------------------------------------------------------------------------

  /** Part `i` of a 1 GiB leaf, a 2 MiB leaf. */
  function PartOfGiant(e: LargeWord, i: nat): LargeWord
    requires i < SLOTS
  {
    ((e & MASK_1G) + (Digit(i) << 21)) | Inherited(e, false) | HUGE
  }

  /** Part `i` of a 2 MiB leaf, a 4 KiB leaf. */
  function PartOfBig(e: LargeWord, i: nat): SmallWord
    requires i < SLOTS
  {
    ((e & MASK_2M) + (Digit(i) << 12)) | Inherited(e, true)
  }

  /** A part of a split 1 GiB leaf leads its pages where the leaf did, with the same attributes. */
  lemma GiantPart(e: LargeWord, m: nat, i: nat)
    requires m < SLOTS && i < SLOTS
    ensures ThroughBig(PartOfGiant(e, m), i) == ThroughGiant(e, m, i)
  {
    GiantPartWord(e, Digit(m));
  }

  lemma GiantPartWord(e: LargeWord, d: Index)
    ensures var part := ((e & MASK_1G) + (d << 21)) | Inherited(e, false) | HUGE;
      && part & MASK_2M == (e & MASK_1G) | (d << 21)
      && part & LEAF_ATTRIBUTES == e & LEAF_ATTRIBUTES && part & PAT == e & PAT
  {
  }

  /** A part of a split 2 MiB leaf likewise. */
  lemma BigPart(e: LargeWord, i: nat)
    requires i < SLOTS
    ensures ThroughSmall(PartOfBig(e, i)) == ThroughBig(e, i)
  {
    BigPartWord(e, Digit(i));
  }

  lemma BigPartWord(e: LargeWord, d: Index)
    ensures var part := ((e & MASK_2M) + (d << 12)) | Inherited(e, true);
      && part & MASK_4K == (e & MASK_2M) | (d << 12)
      && part & LEAF_ATTRIBUTES == e & LEAF_ATTRIBUTES && (part & PAT_4K != 0 <==> e & PAT != 0)
  {
  }

  // ---- words the kernel writes --------------------------------------------------------------------------

  /** Flags for a 4 KiB leaf: present, and clear of the address bits. */
  predicate PageFlags(flags: bv64) {
    flags & PRESENT != 0 && flags & MASK_4K == 0
  }

  /** ... that a large leaf can carry unchanged: bit 7 is not the PAT bit there. */
  predicate LeafFlags(flags: bv64) {
    PageFlags(flags) && flags & PAT_4K == 0
  }

  /** A page-aligned physical address. */
  predicate Physical(a: bv64) {
    a & MASK_4K == a
  }

  function SmallLeaf(a: bv64, flags: bv64): SmallWord
    requires PageFlags(flags)
  {
    a | flags
  }

  function LargeLeaf(a: bv64, flags: bv64): LargeWord
    requires PageFlags(flags)
  {
    a | flags | HUGE
  }

  lemma SmallLeafLeads(a: bv64, flags: bv64)
    requires PageFlags(flags) && Physical(a)
    ensures ThroughSmall(SmallLeaf(a, flags)) == Target(a, AttributesSmall(flags))
  {
  }

  /** A 2 MiB leaf written for page `p` leads its pages to those from `p` on. */
  lemma BigLeafLeads(p: nat, flags: bv64, i: nat)
    requires LeafFlags(flags) && p < GIG * GIG && p % SLOTS == 0 && i < SLOTS
    ensures ThroughBig(LargeLeaf(Address(p), flags), i) == Target(Address(p + i), AttributesSmall(flags))
  {
    AddressInBig(p, i);
    BigLeafWord(Address(p), flags);
  }

  lemma BigLeafWord(a: bv64, flags: bv64)
    requires LeafFlags(flags) && a & 0xffff_0000_001f_ffff == 0
    ensures LargeLeaf(a, flags) & MASK_2M == a
    ensures AttributesLarge(LargeLeaf(a, flags)) == AttributesSmall(flags)
  {
  }

  /** A 1 GiB leaf likewise. */
  lemma GiantLeafLeads(p: nat, flags: bv64, m: nat, i: nat)
    requires LeafFlags(flags) && p < GIG * GIG && p % GIG == 0 && m < SLOTS && i < SLOTS
    ensures ThroughGiant(LargeLeaf(Address(p), flags), m, i) ==
            Target(Address(p + m * SLOTS + i), AttributesSmall(flags))
  {
    AddressInGiant(p, m, i);
    AddressOfGiant(p);
    GiantLeafWord(Address(p), flags);
  }

  lemma GiantLeafWord(a: bv64, flags: bv64)
    requires LeafFlags(flags) && a & 0xffff_0000_3fff_ffff == 0
    ensures LargeLeaf(a, flags) & MASK_1G == a
    ensures AttributesLarge(LargeLeaf(a, flags)) == AttributesSmall(flags)
  {
  }

  /** A 1 GiB leaf that leads one of its pages to a place in the gigabyte from page `p` on leads
      all of them there. */
  lemma GiantIsFlat(e: LargeWord, p: nat, m: nat, i: nat, m': nat, i': nat)
    requires p < GIG * GIG && p % GIG == 0 && m < SLOTS && i < SLOTS && m' < SLOTS && i' < SLOTS
    requires ThroughGiant(e, m, i).address == Address(p + m * SLOTS + i)
    ensures ThroughGiant(e, m', i').address == Address(p + m' * SLOTS + i')
  {
    GiantBase(e, p, m, i);
    AddressInGiant(p, m', i');
  }

  lemma GiantBase(e: LargeWord, p: nat, m: nat, i: nat)
    requires p < GIG * GIG && p % GIG == 0 && m < SLOTS && i < SLOTS
    requires ThroughGiant(e, m, i).address == Address(p + m * SLOTS + i)
    ensures e & MASK_1G == Address(p)
  {
    AddressInGiant(p, m, i);
    AddressOfGiant(p);
    SameBase(e, Address(p), Digit(m), Digit(i));
  }

  lemma SameBase(e: bv64, b: bv64, m: Index, i: Index)
    requires b & 0xffff_0000_3fff_ffff == 0
    requires InGiant(e & MASK_1G, m, i) == InGiant(b, m, i)
    ensures e & MASK_1G == b
  {
  }

  lemma AddressIsPhysical(p: nat)
    requires p < GIG * GIG
    ensures Physical(Address(p))
  {
    BitsBound(p);
  }
}
