/** A user address space: its page tables, the lists of pages it owns and pages it borrows from
    devices, and the frames both come from. What the process sees of it is a map from addresses to
    permissions; the methods change that map one page at a time, through the radix tables, and
    every frame stays accounted for.
  */
module AddressSpaces {
  import opened Outcomes
  import opened PageLeaves
  import opened PageTables

  /** A present 4 KiB leaf as the process meets it: `write` is writable or copy-on-write;
      `device` is the borrowed physical page, none for memory the process owns. */
  datatype UserLeaf = UserLeaf(user: bool, write: bool, execute: bool, device: Option<nat>)

  function AsSeen(leaf: Leaf, device: bool): UserLeaf {
    UserLeaf(leaf.user, leaf.writable || leaf.cow, leaf.execute, if device then Some(leaf.frame) else None)
  }

  /** `set_leaf_flags`: a writable request on a shared frame becomes read-only and copy-on-write. */
  function WithFlags(leaf: Leaf, flags: Flags, shared: bool): Leaf {
    leaf.(user := flags.user, writable := flags.writable && !shared, cow := flags.writable && shared,
          execute := flags.execute)
  }

  /** Memory types: ordinary memory, and write-combining for devices. */
  const CACHED: nat := 0
  const COMBINING: nat := 1

  type Leaves = map<int, Leaf>
  type Seen = map<nat, UserLeaf>

  /** The tables hold the owned and the device pages, and `seen` is what they come to. */
  ghost predicate Linked(t: Leaves, owned: map<int, int>, devices: map<int, int>, seen: Seen) {
    && (forall v {:trigger v in t} :: v in t ==> 0 <= v < USER_END / PAGE && (v in owned || v in devices))
    && (forall v {:trigger v in owned} :: v in owned ==> v in t && v !in devices && owned[v] == t[v].frame)
    && (forall v {:trigger v in owned} :: v in owned ==> t[v].cache == CACHED)
    && (forall v {:trigger v in devices} :: v in devices ==>
          v in t && devices[v] == t[v].frame && t[v].cache == COMBINING)
    && (forall a: nat {:trigger a in seen} :: a in seen <==> Aligned(a) && a / PAGE in t)
    && (forall a: nat {:trigger seen[a]} :: a in seen ==> seen[a] == AsSeen(t[a / PAGE], a / PAGE in devices))
  }

  /** Owned frames differ from each other, from the free ones and from the tables. */
  ghost predicate Apart(owned: map<int, int>, s: State) {
    && (forall v {:trigger owned[v]} :: v in owned ==> 0 <= owned[v] && owned[v] !in s.pool && owned[v] !in s.memory)
    && (forall v, w {:trigger owned[v], owned[w]} :: v in owned && w in owned && owned[v] == owned[w] ==> v == w)
  }

  /** The owned frames no other space uses. */
  ghost function Private(owned: map<int, int>, shared: set<nat>): set<int> {
    set v | v in owned && owned[v] !in shared :: owned[v]
  }

  /** Every frame this space has a say over. */
  ghost function FramesOf(s: State, owned: map<int, int>, shared: set<nat>): set<int> {
    s.pool + s.memory.Keys + Private(owned, shared)
  }

  lemma PageNumber(v: nat, a: nat)
    ensures Aligned(a) && a / PAGE == v <==> a == v * PAGE
  {
  }

  lemma LinkedOwned(t: Leaves, owned: map<int, int>, devices: map<int, int>, seen: Seen, v: nat, leaf: Leaf)
    requires Linked(t, owned, devices, seen) && v < USER_END / PAGE && v !in t && leaf.cache == CACHED
    ensures Linked(t[v := leaf], owned[v := leaf.frame], devices, seen[v * PAGE := AsSeen(leaf, false)])
  {
    forall a: int | 0 <= a
      ensures Aligned(a) && a / PAGE == v <==> a == v * PAGE
    {
      PageNumber(v, a);
    }
  }

  lemma LinkedDevice(t: Leaves, owned: map<int, int>, devices: map<int, int>, seen: Seen, v: nat, leaf: Leaf)
    requires Linked(t, owned, devices, seen) && v < USER_END / PAGE && v !in t && leaf.cache == COMBINING
    ensures Linked(t[v := leaf], owned, devices[v := leaf.frame], seen[v * PAGE := AsSeen(leaf, true)])
  {
    forall a: int | 0 <= a
      ensures Aligned(a) && a / PAGE == v <==> a == v * PAGE
    {
      PageNumber(v, a);
    }
  }

  lemma LinkedRemoved(t: Leaves, owned: map<int, int>, devices: map<int, int>, seen: Seen, v: nat)
    requires Linked(t, owned, devices, seen)
    ensures Linked(t - {v}, owned - {v}, devices - {v}, seen - {v * PAGE})
  {
    forall a: int | 0 <= a
      ensures Aligned(a) && a / PAGE == v <==> a == v * PAGE
    {
      PageNumber(v, a);
    }
  }

  lemma LinkedChanged(t: Leaves, owned: map<int, int>, devices: map<int, int>, seen: Seen, v: nat, leaf: Leaf)
    requires Linked(t, owned, devices, seen) && v in t && leaf.frame == t[v].frame && leaf.cache == t[v].cache
    ensures Linked(t[v := leaf], owned, devices, seen[v * PAGE := AsSeen(leaf, v in devices)])
  {
    forall a: int | 0 <= a
      ensures Aligned(a) && a / PAGE == v <==> a == v * PAGE
    {
      PageNumber(v, a);
    }
  }

  /** Free frames and tables are nobody else's. */
  ghost predicate Ours(s: State, shared: set<nat>) {
    forall f: nat {:trigger f in shared} :: f in s.pool || f in s.memory ==> f !in shared
  }

  /** The tables moved frames between themselves and the pool. */
  lemma TablesChanged(a: State, b: State, owned: map<int, int>, shared: set<nat>)
    requires SameFrames(a, b) && Apart(owned, a) && Ours(a, shared)
    ensures Apart(owned, b) && Ours(b, shared) && FramesOf(b, owned, shared) == FramesOf(a, owned, shared)
  {
    forall f: nat
      ensures f in b.pool || f in b.memory <==> f in a.pool || f in a.memory
    {
      assert f in b.pool + b.memory.Keys <==> f in a.pool + a.memory.Keys;
    }
  }

  /** A free frame becomes the page's, or a page's frame goes out of use. */
  lemma FrameTaken(a: State, b: State, owned: map<int, int>, shared: set<nat>, v: nat, f: nat)
    requires Apart(owned, a) && Ours(a, shared) && f in a.pool && f !in a.memory && v !in owned
    requires b.memory == a.memory && b.pool == a.pool - {f}
    ensures Apart(owned[v := f], b) && Ours(b, shared)
    ensures FramesOf(b, owned[v := f], shared) == FramesOf(a, owned, shared)
  {
    var owned' := owned[v := f];
    forall x: int
      ensures x in Private(owned', shared) <==> x in Private(owned, shared) || x == f
    {
      if x == f {
        assert owned'[v] == f;
      } else if x in Private(owned, shared) {
        var w :| w in owned && owned[w] !in shared && owned[w] == x;
        assert owned'[w] == x;
      }
    }
    assert Private(owned', shared) == Private(owned, shared) + {f};
  }

  lemma FrameDropped(s: State, owned: map<int, int>, shared: set<nat>, v: nat)
    requires Apart(owned, s) && Ours(s, shared) && v in owned
    ensures Apart(owned - {v}, s)
    ensures Private(owned, shared) == Private(owned - {v}, shared) + if owned[v] in shared then {} else {owned[v]}
  {
    var owned' := owned - {v};
    forall x: int
      ensures x in Private(owned, shared) <==>
              x in Private(owned', shared) || (x == owned[v] && owned[v] !in shared)
    {
      if x in Private(owned, shared) && x != owned[v] {
        var w :| w in owned && owned[w] !in shared && owned[w] == x;
        assert w in owned' && owned'[w] == x;
      }
      if x == owned[v] && owned[v] !in shared {
        assert x in Private(owned, shared);
      }
    }
  }

  lemma FrameReturned(a: State, b: State, owned: map<int, int>, shared: set<nat>, v: nat)
    requires Apart(owned, a) && Ours(a, shared) && v in owned && b.memory == a.memory
    requires b.pool == a.pool + if owned[v] in shared then {} else {owned[v]}
    ensures Apart(owned - {v}, b) && Ours(b, shared)
    ensures FramesOf(b, owned - {v}, shared) == FramesOf(a, owned, shared)
  {
    FrameDropped(a, owned, shared, v);
    forall w | w in owned - {v}
      ensures owned[w] != owned[v]
    {
    }
  }

  /** What the process sees of the tables and the lists, if they agree. */
  ghost function Views(s: State, t: Leaves, owned: map<int, int>, devices: map<int, int>,
                       shared: set<nat>): iset<Seen> {
    iset seen | Held(s, t, owned, devices, seen, shared)
  }

  ghost predicate Held(s: State, t: Leaves, owned: map<int, int>, devices: map<int, int>, seen: Seen,
                       shared: set<nat>) {
    Linked(t, owned, devices, seen) && Apart(owned, s) && Ours(s, shared)
  }

  lemma OneView(s: State, t: Leaves, owned: map<int, int>, devices: map<int, int>, seen: Seen, shared: set<nat>)
    requires Held(s, t, owned, devices, seen, shared)
    ensures Views(s, t, owned, devices, shared) == Only(seen)
  {
    forall other | other in Views(s, t, owned, devices, shared)
      ensures other == seen
    {
      SameView(t, owned, devices, seen, other);
    }
  }

  lemma Viewed(s: State, t: Leaves, owned: map<int, int>, devices: map<int, int>, seen: Seen, shared: set<nat>)
    requires Views(s, t, owned, devices, shared) == Only(seen)
    ensures Held(s, t, owned, devices, seen, shared)
  {
    assert seen in Only(seen);
  }

  lemma SameView(t: Leaves, owned: map<int, int>, devices: map<int, int>, seen: Seen, other: Seen)
    requires Linked(t, owned, devices, seen) && Linked(t, owned, devices, other)
    ensures other == seen
  {
    forall a
      ensures a in other <==> a in seen
      ensures a in other ==> other[a] == seen[a]
    {
    }
    assert other.Keys == seen.Keys;
  }

  /** The step from `a` to `b` keeps the space whole and its frames its own. */
  ghost predicate Steady(a: State, owned: map<int, int>, b: State, t': Leaves, owned': map<int, int>,
                         devices': map<int, int>, seen': Seen, shared: set<nat>)
  {
    && Views(b, t', owned', devices', shared) == Only(seen')
    && FramesOf(b, owned', shared) == FramesOf(a, owned, shared)
  }

  lemma OwnedStep(a: State, t: Leaves, owned: map<int, int>, devices: map<int, int>, seen: Seen, shared: set<nat>,
                  mid: State, b: State, t': Leaves, page: nat, v: nat, leaf: Leaf, seen': Seen)
    requires Views(a, t, owned, devices, shared) == Only(seen) && page == v * PAGE && page < USER_END && v !in t
    requires leaf.frame in a.pool && leaf.frame !in a.memory && t' == t[v := leaf] && leaf.cache == CACHED
    requires mid == a.(pool := a.pool - {leaf.frame}) && SameFrames(mid, b)
    requires seen' == seen[page := AsSeen(leaf, false)]
    ensures Steady(a, owned, b, t', owned[v := leaf.frame], devices, seen', shared)
  {
    Viewed(a, t, owned, devices, seen, shared);
    LinkedOwned(t, owned, devices, seen, v, leaf);
    FrameTaken(a, mid, owned, shared, v, leaf.frame);
    TablesChanged(mid, b, owned[v := leaf.frame], shared);
    OneView(b, t', owned[v := leaf.frame], devices, seen', shared);
  }

  lemma DeviceStep(a: State, t: Leaves, owned: map<int, int>, devices: map<int, int>, seen: Seen, shared: set<nat>,
                   b: State, t': Leaves, page: nat, v: nat, leaf: Leaf, seen': Seen)
    requires Views(a, t, owned, devices, shared) == Only(seen) && page == v * PAGE && page < USER_END && v !in t
    requires SameFrames(a, b) && t' == t[v := leaf] && seen' == seen[page := AsSeen(leaf, true)]
    requires leaf.cache == COMBINING
    ensures Steady(a, owned, b, t', owned, devices[v := leaf.frame], seen', shared)
  {
    Viewed(a, t, owned, devices, seen, shared);
    LinkedDevice(t, owned, devices, seen, v, leaf);
    TablesChanged(a, b, owned, shared);
    OneView(b, t', owned, devices[v := leaf.frame], seen', shared);
  }

  /** A page goes, and its frame with it if it was owned by this space alone. */
  lemma UnmapStep(a: State, t: Leaves, owned: map<int, int>, devices: map<int, int>, seen: Seen, shared: set<nat>,
                  mid: State, b: State, page: nat, v: nat, seen': Seen)
    requires Views(a, t, owned, devices, shared) == Only(seen) && page == v * PAGE && SameFrames(a, mid)
    requires b.memory == mid.memory
    requires b.pool == mid.pool + if v in owned && owned[v] !in shared then {owned[v]} else {}
    requires seen' == seen - {page}
    ensures Steady(a, owned, b, t - {v}, owned - {v}, devices - {v}, seen', shared)
  {
    Viewed(a, t, owned, devices, seen, shared);
    LinkedRemoved(t, owned, devices, seen, v);
    TablesChanged(a, mid, owned, shared);
    if v in owned {
      FrameReturned(mid, b, owned, shared, v);
    } else {
      assert owned - {v} == owned;
      assert b.pool == mid.pool;
    }
    OneView(b, t - {v}, owned - {v}, devices - {v}, seen', shared);
  }

  lemma FlagsStep(a: State, t: Leaves, owned: map<int, int>, devices: map<int, int>, seen: Seen, shared: set<nat>,
                  b: State, t': Leaves, page: nat, v: nat, leaf: Leaf, seen': Seen)
    requires Views(a, t, owned, devices, shared) == Only(seen) && page == v * PAGE && v in t && leaf.frame == t[v].frame
    requires leaf.cache == t[v].cache
    requires b.memory.Keys == a.memory.Keys && b.pool == a.pool && t' == t[v := leaf]
    requires seen' == seen[page := AsSeen(leaf, v in devices)]
    ensures Steady(a, owned, b, t', owned, devices, seen', shared)
  {
    Viewed(a, t, owned, devices, seen, shared);
    LinkedChanged(t, owned, devices, seen, v, leaf);
    assert SameFrames(a, b);
    TablesChanged(a, b, owned, shared);
    OneView(b, t', owned, devices, seen', shared);
  }

  /** Device pages stay write-combining and owned pages cached, whatever permissions are set. */
  lemma MemoryTypes(space: AddressSpace, v: nat)
    requires space.Valid() && v in space.tables.leaves
    ensures space.tables.leaves[v].cache == if v in space.devices then COMBINING else CACHED
  {
    Viewed(space.tables.Now(), space.tables.leaves, space.owned, space.devices, space.seen, space.shared);
  }

  /** Where the tables and the lists say the same. */
  lemma SeenAt(a: State, t: Leaves, owned: map<int, int>, devices: map<int, int>, seen: Seen, shared: set<nat>,
               page: nat, v: nat)
    requires Views(a, t, owned, devices, shared) == Only(seen) && page == v * PAGE
    ensures page in seen <==> v in t
    ensures v in t ==> seen[page] == AsSeen(t[v], v in devices) && page < USER_END
    ensures v in owned ==> v !in devices && 0 <= owned[v] && owned[v] !in a.pool && owned[v] !in a.memory
  {
    Viewed(a, t, owned, devices, seen, shared);
    PageNumber(v, page);
  }

  /** The frame of an owned page is neither free nor a table after the tables changed. */
  lemma NotOurs(a: State, b: State, owned: map<int, int>, devices: map<int, int>, shared: set<nat>, t: Leaves,
                seen: Seen, v: nat)
    requires Views(a, t, owned, devices, shared) == Only(seen) && SameFrames(a, b) && v in t
    ensures v in devices || v in owned
    ensures v in owned ==> 0 <= owned[v] && owned[v] !in b.memory
  {
    Viewed(a, t, owned, devices, seen, shared);
    TablesChanged(a, b, owned, shared);
  }

  class AddressSpace {
    const tables: Space
    /** Frames that other spaces hold too, by their reference counts. */
    const shared: set<nat>
    /** `owned` and `devices`, by page number: the lists are searched by address only. */
    var owned: map<int, int>
    var devices: map<int, int>
    ghost var seen: Seen

    /** The tables are sound, and the process sees `seen` of them. */
    ghost predicate Valid()
      reads this, tables
    {
      tables.Valid() && Views(tables.Now(), tables.leaves, owned, devices, shared) == Only(seen)
    }

    ghost function Frames(): set<int>
      reads this, tables
    {
      FramesOf(tables.Now(), owned, shared)
    }

    constructor (tables: Space, shared: set<nat>)
      requires tables.Valid() && tables.leaves == map[] && Ours(tables.Now(), shared)
      ensures Valid() && this.tables == tables && this.shared == shared && seen == map[]
    {
      this.tables, this.shared, owned, devices, seen := tables, shared, map[], map[], map[];
      new;
      OneView(tables.Now(), tables.leaves, owned, devices, seen, shared);
    }

    /** The frames a new page takes: its own if it is memory, and the tables it is missing. */
    ghost function Needs(a: nat, device: bool): nat
      reads this, tables
    {
      Missing(tables.at, [], PathOf(a / PAGE)) + if device then 0 else 1
    }

    /** `map_owned` of a new frame. */
    method MapOwned(a: nat, flags: Flags) returns (ok: bool)
      requires Valid() && Aligned(a) && a < USER_END
      modifies this, tables
      ensures Valid() && Frames() == old(Frames())
      ensures ok <==> a !in old(seen) && old(Needs(a, false)) <= |old(tables.pool)|
      ensures |tables.pool| == |old(tables.pool)| - if ok then old(Needs(a, false)) else 0
      ensures seen == if ok then old(seen)[a := UserLeaf(flags.user, flags.writable, flags.execute, None)]
                      else old(seen)
    {
      var v := a / PAGE;
      ghost var was, t := tables.Now(), tables.leaves;
      SeenAt(was, t, owned, devices, seen, shared, a, v);
      var f := tables.TakeFrame();
      if f.None? {
        return false;
      }
      assert tables.Now() == was.(pool := was.pool - {f.value});
      ok := MapTaken(a, v, f.value, flags, was, t);
    }

    /** ... once the frame is taken. */
    method MapTaken(ghost a: nat, v: nat, f: nat, flags: Flags, ghost was: State, ghost t: Leaves) returns (ok: bool)
      requires tables.Valid() && tables.leaves == t && Views(was, t, owned, devices, shared) == Only(seen)
      requires a == v * PAGE && a < USER_END && f in was.pool && f !in was.memory
      requires tables.Now() == was.(pool := was.pool - {f})
      modifies this`owned, this`seen, tables
      ensures Valid() && Frames() == FramesOf(was, old(owned), shared)
      ensures ok <==> v !in t && Missing(was.at, [], PathOf(v)) + 1 <= |was.pool|
      ensures |tables.pool| == |was.pool| - if ok then Missing(was.at, [], PathOf(v)) + 1 else 0
      ensures seen == if ok then old(seen)[a := UserLeaf(flags.user, flags.writable, flags.execute, None)]
                      else old(seen)
    {
      var leaf := Leaf(f, flags.user, flags.writable, false, flags.execute, CACHED);
      ghost var mid := tables.Now();
      var r := tables.Map(v, leaf);
      if r.Failed? {
        PutBack(f, was);
        return false;
      }
      Own(a, v, leaf, was, t, mid);
      return true;
    }

    /** The frame taken for a page that could not be mapped. */
    method PutBack(f: nat, ghost was: State)
      requires tables.Valid() && tables.Now() == was.(pool := was.pool - {f}) && f in was.pool && f !in was.memory
      modifies tables`pool
      ensures tables.Valid() && tables.Now() == was
    {
      tables.GiveFrame(f);
      assert was.pool - {f} + {f} == was.pool;
    }

    /** The new page joins the list of owned ones. */
    method Own(ghost a: nat, v: nat, leaf: Leaf, ghost was: State, ghost t: Leaves, ghost mid: State)
      requires tables.Valid() && Views(was, t, owned, devices, shared) == Only(seen)
      requires a == v * PAGE && a < USER_END && v !in t && leaf.frame in was.pool && leaf.frame !in was.memory
      requires leaf.cache == CACHED
      requires mid == was.(pool := was.pool - {leaf.frame}) && SameFrames(mid, tables.Now())
      requires tables.leaves == t[v := leaf]
      modifies this`owned, this`seen
      ensures Valid() && Frames() == FramesOf(was, old(owned), shared)
      ensures seen == old(seen)[a := UserLeaf(leaf.user, leaf.writable || leaf.cow, leaf.execute, None)]
    {
      ghost var owned0, seen0 := owned, seen;
      owned := owned[v := leaf.frame];
      seen := seen[a := UserLeaf(leaf.user, leaf.writable || leaf.cow, leaf.execute, None)];
      OwnedStep(was, t, owned0, devices, seen0, shared, mid, tables.Now(), tables.leaves, a, v, leaf, seen);
    }

    /** `map_device`. */
    method MapDevice(a: nat, physical: nat, flags: Flags) returns (ok: bool)
      requires Valid() && Aligned(a) && a < USER_END
      modifies this, tables
      ensures Valid() && Frames() == old(Frames())
      ensures ok <==> a !in old(seen) && old(Needs(a, true)) <= |old(tables.pool)|
      ensures |tables.pool| == |old(tables.pool)| - if ok then old(Needs(a, true)) else 0
      ensures seen == if ok then old(seen)[a := UserLeaf(flags.user, flags.writable, flags.execute, Some(physical))]
                      else old(seen)
    {
      var v := a / PAGE;
      ghost var was, t := tables.Now(), tables.leaves;
      SeenAt(was, t, owned, devices, seen, shared, a, v);
      var leaf := Leaf(physical, flags.user, flags.writable, false, flags.execute, COMBINING);
      var r := tables.Map(v, leaf);
      if r.Failed? {
        return false;
      }
      ghost var devices0, seen0 := devices, seen;
      devices := devices[v := physical];
      seen := seen[a := UserLeaf(flags.user, flags.writable, flags.execute, Some(physical))];
      DeviceStep(was, t, owned, devices0, seen0, shared, tables.Now(), tables.leaves, a, v, leaf, seen);
      return true;
    }

    /** `unmap_mapping`, with the reference dropped if the page was owned: the last one frees. */
    method Unmap(a: nat) returns (ok: bool)
      requires Valid() && Aligned(a)
      modifies this, tables
      ensures Valid() && Frames() == old(Frames()) && old(tables.pool) <= tables.pool
      ensures seen == old(seen) - {a} && (ok <==> a in old(seen))
    {
      var v := a / PAGE;
      ghost var was, t := tables.Now(), tables.leaves;
      SeenAt(was, t, owned, devices, seen, shared, a, v);
      if a >= USER_END {
        assert seen - {a} == seen;
        return false;
      }
      var r := tables.Unmap(v);
      if r.Failed? {
        assert seen - {a} == seen && tables.leaves == t;
        return false;
      }
      Disown(a, v, was, t);
      return true;
    }

    /** `remove_owned`: the page leaves its list. */
    method Disown(ghost a: nat, v: nat, ghost was: State, ghost t: Leaves)
      requires tables.Valid() && Views(was, t, owned, devices, shared) == Only(seen)
      requires a == v * PAGE && v in t && SameFrames(was, tables.Now()) && was.pool <= tables.pool
      requires tables.leaves == t - {v}
      modifies this`owned, this`devices, this`seen, tables`pool
      ensures Valid() && Frames() == FramesOf(was, old(owned), shared) && was.pool <= tables.pool
      ensures seen == old(seen) - {a}
    {
      ghost var mid, owned0, devices0, seen0 := tables.Now(), owned, devices, seen;
      SeenAt(was, t, owned, devices, seen, shared, a, v);
      NotOurs(was, mid, owned, devices, shared, t, seen, v);
      if v in devices {
        devices := devices - {v};
        assert owned - {v} == owned;
      } else {
        assert devices - {v} == devices;
        Drop(owned[v]);
        owned := owned - {v};
      }
      seen := seen - {a};
      UnmapStep(was, t, owned0, devices0, seen0, shared, mid, tables.Now(), a, v, seen);
    }

    /** `free_frame` on a page's frame. */
    method Drop(f: nat)
      requires tables.Valid() && f !in tables.memory
      modifies tables`pool
      ensures tables.Valid() && tables.pool == old(tables.pool) + if f in shared then {} else {f}
    {
      if f !in shared {
        tables.GiveFrame(f);
      }
    }

    /** `set_leaf_flags`, for `protect` and `protect_inaccessible`. */
    method SetFlags(a: nat, flags: Flags) returns (ok: bool)
      requires Valid() && Aligned(a)
      modifies this, tables
      ensures Valid() && Frames() == old(Frames()) && |tables.pool| == |old(tables.pool)|
      ensures ok <==> a in old(seen)
      ensures seen == if ok then old(seen)[
          a := UserLeaf(flags.user, flags.writable, flags.execute, old(seen)[a].device)]
                      else old(seen)
    {
      var v := a / PAGE;
      ghost var was, t := tables.Now(), tables.leaves;
      SeenAt(was, t, owned, devices, seen, shared, a, v);
      if a >= USER_END {
        return false;
      }
      var leaf := tables.Lookup(v);
      if leaf.Failed? {
        return false;
      }
      var now := WithFlags(leaf.value, flags, leaf.value.frame in shared);
      var _ := tables.Rewrite(v, now);
      ghost var seen0 := seen;
      seen := seen[a := UserLeaf(flags.user, flags.writable, flags.execute, seen[a].device)];
      FlagsStep(was, t, owned, devices, seen0, shared, tables.Now(), tables.leaves, a, v, now, seen);
      return true;
    }
  }
}
