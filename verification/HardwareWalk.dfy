/** How the processor reads the tables: nine bits of the address choose the slot at each of the
    four levels, the highest first, and the page's leaf is at the end. Whatever the kernel maps,
    the processor finds, and nothing else.
  */
module HardwareWalk {
  import opened Outcomes
  import opened PageLeaves
  import opened PageTables

  /** The table the slot points to. */
  function Below(memory: map<int, Slots>, table: Option<nat>, slot: nat): Option<nat> {
    if table.Some? && table.value in memory && slot in memory[table.value] && memory[table.value][slot].Table?
    then Some(memory[table.value][slot].frame) else None
  }

  function LeafIn(memory: map<int, Slots>, table: Option<nat>, slot: nat): Option<Leaf> {
    if table.Some? && table.value in memory && slot in memory[table.value] && memory[table.value][slot].Page?
    then Some(memory[table.value][slot].leaf) else None
  }

  /** Bits 39 to 47 of the address, then 30 to 38, 21 to 29 and 12 to 20. */
  function Walk(memory: map<int, Slots>, root: nat, address: nat): Option<Leaf> {
    var pdpt := Below(memory, Some(root), address / 0x80_0000_0000 % 512);
    var pd := Below(memory, pdpt, address / 0x4000_0000 % 512);
    var pt := Below(memory, pd, address / 0x20_0000 % 512);
    LeafIn(memory, pt, address / 0x1000 % 512)
  }

  lemma PathBits(address: nat)
    ensures PathOf(address / PAGE) == [address / 0x80_0000_0000 % 512, address / 0x4000_0000 % 512,
                                       address / 0x20_0000 % 512, address / 0x1000 % 512]
  {
    var page := address / PAGE;
    assert page / 512 == address / 0x20_0000;
    assert page / 512 / 512 == address / 0x4000_0000;
    assert page / 512 / 512 / 512 == address / 0x80_0000_0000;
  }

  /** The frame of the table at a path, if there is one. */
  ghost function FrameAt(s: State, p: Path): Option<nat> {
    if p in s.at then Some(s.at[p]) else None
  }

  ghost predicate Stands(s: State) {
    Shape(s.memory, s.at, s.pages)
  }

  lemma BelowIs(s: State, p: Path, i: nat, q: Path)
    requires Stands(s) && |p| < 3 && q == p + [i]
    ensures Below(s.memory, FrameAt(s, p), i) == FrameAt(s, q)
  {
    assert q[..|q| - 1] == p;
    if q in s.at {
      PrefixIn(s.memory, s.at, q);
    }
    if p in s.at {
      assert TableOk(s.memory, s.at, s.pages, p);
      assert p + [i] in s.at <==> i in s.memory[s.at[p]] && s.memory[s.at[p]][i].Table?;
    }
  }

  lemma LeafIs(s: State, p: Path, i: nat, k: Path)
    requires Stands(s) && |p| == 3 && k == p + [i]
    ensures LeafIn(s.memory, FrameAt(s, p), i) == if k in s.pages then Some(s.pages[k]) else None
  {
    assert k[..3] == p;
    if p in s.at {
      assert TableOk(s.memory, s.at, s.pages, p);
      assert p + [i] in s.pages <==> i in s.memory[s.at[p]];
    }
  }

  lemma WalkIs(s: State, root: nat, address: nat, k: Path)
    requires Stands(s) && s.at[[]] == root && k == PathOf(address / PAGE)
    ensures Walk(s.memory, root, address) == if k in s.pages then Some(s.pages[k]) else None
  {
    PathBits(address);
    BelowIs(s, [], k[0], [k[0]]);
    BelowIs(s, [k[0]], k[1], [k[0], k[1]]);
    BelowIs(s, [k[0], k[1]], k[2], [k[0], k[1], k[2]]);
    LeafIs(s, [k[0], k[1], k[2]], k[3], k);
  }

  /** For any address of the 48-bit space the processor finds the leaf of its page exactly when the
      tables map it. */
  lemma ProcessorFinds(s: State, root: nat, leaves: map<int, Leaf>, address: nat)
    requires Meanings(s, root) == Only(leaves) && address / PAGE < PAGES
    ensures Walk(s.memory, root, address) ==
            if address / PAGE in leaves then Some(leaves[address / PAGE]) else None
  {
    Meant(s, root, leaves);
    WalkIs(s, root, address, PathOf(address / PAGE));
  }

  /** So it is for any space the methods leave behind. */
  lemma SpaceFinds(space: Space, address: nat)
    requires space.Valid() && address / PAGE < PAGES
    ensures Walk(space.memory, space.root, address) ==
            if address / PAGE in space.leaves then Some(space.leaves[address / PAGE]) else None
  {
    ProcessorFinds(space.Now(), space.root, space.leaves, address);
  }
}
