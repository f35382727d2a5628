/** Copy-on-write address spaces over reference-counted frames.

    `World` is everything the protocol touches: the leaf entries and mapping lists of
    every address space, the per-frame reference counts and ownership states, and the
    bytes in memory. The functions ending in `Step` say what each kernel operation does
    to it; class `Memory` runs the operations in place, loops included, and is proved to
    do exactly that. `CopyOnWriteProofs` then relates whole runs to a kernel in which
    fork copies every page at once.
  */
module CopyOnWrite {
  import opened Bytes
  import opened Outcomes
  import opened PageLeaves
  import PageTables
  import opened TableCounts

  const PAGE_BYTES: nat := 4096
  const REF_MAX: nat := 0xffff

  type Frame = nat
  type Page = nat
  type SpaceId = nat
  type Content = c: seq<Byte> | |c| == PAGE_BYTES witness seq(PAGE_BYTES, _ => 0)

  function Zeroed(): Content {
    seq(PAGE_BYTES, _ => 0)
  }

  datatype Ownership = Reserved | Free | Allocated

  datatype Mapping = Mapping(page: Page, frame: Frame)

  datatype Space = Space(leaves: map<Page, Leaf>, owned: seq<Mapping>, devices: seq<Mapping>)

  /** `held` counts the references that no address space holds: the kernel's own (page tables and
      the like), and those `lost`, that nobody will drop. */
  datatype World = World(
    spaces: map<SpaceId, Space>,
    refs: map<Frame, nat>,
    state: map<Frame, Ownership>,
    content: map<Frame, Content>,
    held: multiset<Frame>,
    lost: multiset<Frame>)

  const EMPTY_SPACE := Space(map[], [], [])

  function Pages(ms: seq<Mapping>): set<Page> {
    if ms == [] then {} else Pages(ms[..|ms| - 1]) + {ms[|ms| - 1].page}
  }

  function Frames(ms: seq<Mapping>): set<Frame> {
    if ms == [] then {} else Frames(ms[..|ms| - 1]) + {ms[|ms| - 1].frame}
  }

  /** What fork does to a writable leaf, on both sides. */
  function Share(leaf: Leaf): Leaf {
    if leaf.writable then leaf.(writable := false, cow := true) else leaf
  }

  function ShareLeaves(leaves: map<Page, Leaf>, pages: set<Page>): map<Page, Leaf> {
    map p | p in leaves :: if p in pages then Share(leaves[p]) else leaves[p]
  }

  function AddRefs(refs: map<Frame, nat>, fs: set<Frame>): map<Frame, nat> {
    map f | f in refs :: if f in fs then refs[f] + 1 else refs[f]
  }

  function DropRefs(refs: map<Frame, nat>, fs: set<Frame>): map<Frame, nat> {
    map f | f in refs :: if f in fs && refs[f] > 0 then refs[f] - 1 else refs[f]
  }

  /** Ownership states after dropping one reference to each of `fs`: the last one frees. */
  function DropStates(state: map<Frame, Ownership>, refs: map<Frame, nat>, fs: set<Frame>): map<Frame, Ownership> {
    map f | f in state :: if f in fs && f in refs && refs[f] == 1 then Free else state[f]
  }

  function DropFrames(w: World, fs: set<Frame>): World {
    w.(refs := DropRefs(w.refs, fs), state := DropStates(w.state, w.refs, fs))
  }

  function Refcount(w: World, f: Frame): nat {
    if f in w.refs then w.refs[f] else 1
  }

  /** `alloc_frame` handing out `f`. */
  function Allocate(w: World, f: Frame, c: Content): World {
    w.(refs := w.refs[f := 1], state := w.state[f := Allocated], content := w.content[f := c])
  }

  predicate CanAllocate(w: World, f: Frame) {
    f in w.state && w.state[f] == Free
  }

  // ---- one operation each ------------------------------------------------------

  function NewSpaceStep(w: World, s: SpaceId): World {
    w.(spaces := w.spaces[s := EMPTY_SPACE])
  }

  function MapOwnedStep(w: World, s: SpaceId, p: Page, flags: Flags, f: Frame): World
    requires s in w.spaces
  {
    var sp := w.spaces[s];
    var leaf := Leaf(f, flags.user, flags.writable, false, flags.execute, 0);
    Allocate(w, f, Zeroed()).(spaces := w.spaces[s := sp.(leaves := sp.leaves[p := leaf],
                                                        owned := sp.owned + [Mapping(p, f)])])
  }

  function MapDeviceStep(w: World, s: SpaceId, p: Page, flags: Flags, cache: nat, f: Frame): World
    requires s in w.spaces
  {
    var sp := w.spaces[s];
    var leaf := Leaf(f, flags.user, flags.writable, false, flags.execute, cache);
    w.(spaces := w.spaces[s := sp.(leaves := sp.leaves[p := leaf], devices := sp.devices + [Mapping(p, f)])])
  }

  /** Permission bits for a request: a writable request on a shared frame becomes COW. */
  function Protected(w: World, leaf: Leaf, flags: Flags): Leaf {
    var shared := Refcount(w, leaf.frame) > 1;
    Leaf(leaf.frame, flags.user, flags.writable && !shared, flags.writable && shared, flags.execute, leaf.cache)
  }

  function ProtectStep(w: World, s: SpaceId, p: Page, flags: Flags): World
    requires s in w.spaces
  {
    var sp := w.spaces[s];
    if p !in sp.leaves then w
    else w.(spaces := w.spaces[s := sp.(leaves := sp.leaves[p := Protected(w, sp.leaves[p], flags)])])
  }

  function IndexOf(ms: seq<Mapping>, p: Page): (i: nat)
    ensures i <= |ms|
    ensures i < |ms| ==> ms[i].page == p
    ensures forall j :: 0 <= j < i ==> ms[j].page != p
  {
    if ms == [] then 0 else if ms[0].page == p then 0 else 1 + IndexOf(ms[1..], p)
  }

  function SwapRemove<T>(s: seq<T>, i: nat): (r: seq<T>)
    requires i < |s|
  {
    s[i := s[|s| - 1]][..|s| - 1]
  }

  function UnmapStep(w: World, s: SpaceId, p: Page): World
    requires s in w.spaces
  {
    var sp := w.spaces[s];
    if p !in sp.leaves then w else
    var leaves := sp.leaves - {p};
    var d := IndexOf(sp.devices, p);
    if d < |sp.devices| then
      w.(spaces := w.spaces[s := Space(leaves, sp.owned, SwapRemove(sp.devices, d))])
    else
      var i := IndexOf(sp.owned, p);
      if i == |sp.owned| then w.(spaces := w.spaces[s := sp.(leaves := leaves)])
      else
        var w' := w.(spaces := w.spaces[s := Space(leaves, SwapRemove(sp.owned, i), sp.devices)]);
        if sp.owned[i].frame == sp.leaves[p].frame then DropFrames(w', {sp.owned[i].frame}) else w'
  }

  function ForkStep(w: World, parent: SpaceId, child: SpaceId): World
    requires parent in w.spaces
  {
    var sp := w.spaces[parent];
    var shared := sp.(leaves := ShareLeaves(sp.leaves, Pages(sp.owned)));
    w.(spaces := w.spaces[parent := shared][child := shared], refs := AddRefs(w.refs, Frames(sp.owned)))
  }

  /** A fork that fails after `n` owned pages were turned copy-on-write in the parent. */
  function ForkFailedStep(w: World, parent: SpaceId, n: nat): World
    requires parent in w.spaces && n <= |w.spaces[parent].owned|
  {
    var sp := w.spaces[parent];
    w.(spaces := w.spaces[parent := sp.(leaves := ShareLeaves(sp.leaves, Pages(sp.owned[..n])))])
  }

  /** How many pages a fork has turned copy-on-write when it is cut off with `n` references taken. */
  function Visiting(owned: seq<Mapping>, n: nat): nat {
    if n < |owned| then n + 1 else n
  }

  /** A fork cut off: at `owned[n]`, whose frame's count is saturated, or after all owned pages, for
      want of memory for the list of devices. The child is dropped before it is given its lists, so
      the `n` references taken stay behind. */
  function ForkLeakedStep(w: World, parent: SpaceId, n: nat): World
    requires parent in w.spaces && n <= |w.spaces[parent].owned|
  {
    var shared := Frames(w.spaces[parent].owned[..n]);
    var visited := ForkFailedStep(w, parent, Visiting(w.spaces[parent].owned, n));
    visited.(refs := AddRefs(w.refs, shared), held := w.held + multiset(shared), lost := w.lost + multiset(shared))
  }

  /** `resolve_cow` on a page of the space; `copy` is what the frame allocator offers. */
  function ResolveStep(w: World, s: SpaceId, p: Page, copy: Frame): World
    requires s in w.spaces
  {
    var sp := w.spaces[s];
    if p !in sp.leaves || !sp.leaves[p].cow then w else
    var leaf := sp.leaves[p];
    if Refcount(w, leaf.frame) <= 1 then
      w.(spaces := w.spaces[s := sp.(leaves := sp.leaves[p := leaf.(cow := false, writable := true)])])
    else
      var i := IndexOf(sp.owned, p);
      var owned := if i < |sp.owned| then sp.owned[i := Mapping(p, copy)] else sp.owned;
      var leaves := sp.leaves[p := leaf.(cow := false, writable := true, frame := copy)];
      var c := if leaf.frame in w.content then w.content[leaf.frame] else Zeroed();
      DropFrames(Allocate(w, copy, c).(spaces := w.spaces[s := Space(leaves, owned, sp.devices)]), {leaf.frame})
  }

  function SetByte(c: Content, offset: nat, b: Byte): Content
    requires offset < PAGE_BYTES
  {
    c[offset := b]
  }

  /** Resolving the page needs a copy and no frame is left for one. */
  predicate NoCopyLeft(w: World, s: SpaceId, p: Page, copy: Option<Frame>)
    requires s in w.spaces
  {
    && copy.None? && p in w.spaces[s].leaves && w.spaces[s].leaves[p].cow
    && Refcount(w, w.spaces[s].leaves[p].frame) > 1
  }

  /** A user store the hardware lets through: it lands in the leaf's frame. */
  function WriteStep(w: World, s: SpaceId, p: Page, offset: nat, b: Byte): World
    requires s in w.spaces && offset < PAGE_BYTES
  {
    var sp := w.spaces[s];
    if p in sp.leaves && sp.leaves[p].user && sp.leaves[p].writable && sp.leaves[p].frame in w.content then
      var f := sp.leaves[p].frame;
      w.(content := w.content[f := SetByte(w.content[f], offset, b)])
    else w
  }

  function ExitStep(w: World, s: SpaceId): World
    requires s in w.spaces
  {
    DropFrames(w.(spaces := w.spaces - {s}), Frames(w.spaces[s].owned))
  }

  // ---- well-formed address spaces -------------------------------------------------

  ghost predicate DistinctPages(ms: seq<Mapping>) {
    ms != [] ==> ms[|ms| - 1].page !in Pages(ms[..|ms| - 1]) && DistinctPages(ms[..|ms| - 1])
  }

  ghost predicate DistinctFrames(ms: seq<Mapping>) {
    ms != [] ==> ms[|ms| - 1].frame !in Frames(ms[..|ms| - 1]) && DistinctFrames(ms[..|ms| - 1])
  }

  /** No page and no frame is listed twice. */
  ghost predicate Distinct(ms: seq<Mapping>) {
    DistinctPages(ms) && DistinctFrames(ms)
  }

  ghost predicate Backs(leaves: map<Page, Leaf>, ms: seq<Mapping>) {
    forall m :: m in ms ==> m.page in leaves && leaves[m.page].frame == m.frame
  }

  /** The mapping lists and the leaf entries describe the same pages; no frame is owned
      twice; device pages are never copy-on-write. */
  ghost predicate ValidSpace(sp: Space) {
    && Distinct(sp.owned) && DistinctPages(sp.devices)
    && Backs(sp.leaves, sp.owned)
    && Backs(sp.leaves, sp.devices)
    && Pages(sp.owned) !! Pages(sp.devices)
    && sp.leaves.Keys == Pages(sp.owned) + Pages(sp.devices)
    && (forall p :: p in sp.leaves ==> !(sp.leaves[p].writable && sp.leaves[p].cow))
    && (forall p :: p in Pages(sp.devices) ==> !sp.leaves[p].cow)
  }

  /** Every mapping of the list holds a reference that can be dropped. */
  ghost predicate Referenced(w: World, ms: seq<Mapping>) {
    forall f :: f in Frames(ms) ==> f in w.refs && w.refs[f] > 0 && f in w.state && w.state[f] == Allocated
  }

  // ---- the same operations, in place ---------------------------------------------

  datatype ForkResult = Forked | OutOfFrames | CutOff

  datatype CowResolution = NotCow | OutOfMemory | Resolved

  lemma DropOneMore(w: World, fs: set<Frame>, f: Frame)
    requires f !in fs
    ensures DropFrames(DropFrames(w, fs), {f}) == DropFrames(w, fs + {f})
  {
    var a, b := DropFrames(DropFrames(w, fs), {f}), DropFrames(w, fs + {f});
    assert a.refs == b.refs;
    assert a.state == b.state;
  }

  lemma DropNothing(w: World)
    ensures DropFrames(w, {}) == w
  {
    assert DropFrames(w, {}).refs == w.refs;
    assert DropFrames(w, {}).state == w.state;
  }

  /** Dropping references just taken puts counts and states back. */
  lemma DropUndoesAdd(w: World, fs: set<Frame>)
    requires forall f :: f in fs ==> f in w.refs && w.refs[f] > 0
    ensures DropFrames(w.(refs := AddRefs(w.refs, fs)), fs) == w
  {
    var r := DropFrames(w.(refs := AddRefs(w.refs, fs)), fs);
    assert r.refs == w.refs;
    assert r.state == w.state;
  }

  lemma PrefixExtends(ms: seq<Mapping>, i: nat)
    requires i < |ms|
    ensures ms[..i + 1] == ms[..i] + [ms[i]] && ms[..i + 1][..i] == ms[..i]
    ensures Pages(ms[..i + 1]) == Pages(ms[..i]) + {ms[i].page}
    ensures Frames(ms[..i + 1]) == Frames(ms[..i]) + {ms[i].frame}
    ensures Distinct(ms[..i + 1]) ==>
              Distinct(ms[..i]) && ms[i].page !in Pages(ms[..i]) && ms[i].frame !in Frames(ms[..i])
  {
    assert ms[..i + 1][..i] == ms[..i];
  }

  lemma {:induction false} PrefixDistinct(ms: seq<Mapping>, i: nat)
    requires Distinct(ms) && i <= |ms|
    ensures Distinct(ms[..i])
    decreases |ms| - i
  {
    if i == |ms| {
      assert ms[..i] == ms;
    } else {
      PrefixDistinct(ms, i + 1);
      PrefixExtends(ms, i);
    }
  }

  lemma {:induction false} PrefixFrames(ms: seq<Mapping>, i: nat)
    requires i <= |ms|
    ensures Frames(ms[..i]) <= Frames(ms)
    decreases |ms| - i
  {
    if i == |ms| {
      assert ms[..i] == ms;
    } else {
      PrefixFrames(ms, i + 1);
      PrefixExtends(ms, i);
    }
  }

  lemma {:induction false} Listed(ms: seq<Mapping>, m: Mapping)
    requires m in ms
    ensures m.page in Pages(ms) && m.frame in Frames(ms)
  {
    if m != ms[|ms| - 1] {
      assert m in ms[..|ms| - 1];
      Listed(ms[..|ms| - 1], m);
    }
  }

  lemma ShareExtends(leaves: map<Page, Leaf>, pages: set<Page>, p: Page)
    requires p in leaves && p !in pages
    ensures ShareLeaves(leaves, pages + {p}) == ShareLeaves(leaves, pages)[p := Share(leaves[p])]
  {
  }

  lemma AddExtends(refs: map<Frame, nat>, fs: set<Frame>, f: Frame)
    requires f in refs && f !in fs
    ensures AddRefs(refs, fs + {f}) == AddRefs(refs, fs)[f := refs[f] + 1]
  {
  }

  /** A copy-on-write leaf names an owned frame. */
  lemma CowPagesAreOwned(sp: Space, p: Page)
    requires ValidSpace(sp) && p in sp.leaves && sp.leaves[p].cow
    ensures p in Pages(sp.owned) && sp.leaves[p].frame in Frames(sp.owned)
    ensures var i := IndexOf(sp.owned, p); i < |sp.owned| && sp.owned[i] == Mapping(p, sp.leaves[p].frame)
  {
    var i := FindPage(sp.owned, p);
    Listed(sp.owned, sp.owned[i]);
    var k := IndexOf(sp.owned, p);
    assert sp.owned[k] in sp.owned;
  }

  lemma {:induction false} FindPage(ms: seq<Mapping>, p: Page) returns (i: nat)
    requires p in Pages(ms)
    ensures i < |ms| && ms[i].page == p
  {
    if ms[|ms| - 1].page == p {
      i := |ms| - 1;
    } else {
      i := FindPage(ms[..|ms| - 1], p);
    }
  }

  class Memory {
    var spaces: map<SpaceId, Space>
    var refs: map<Frame, nat>
    var state: map<Frame, Ownership>
    var content: map<Frame, Content>
    ghost var held: multiset<Frame>
    ghost var lost: multiset<Frame>

    ghost function View(): World
      reads this
    {
      World(spaces, refs, state, content, held, lost)
    }

    /** `free_frame`. It panics on a frame that holds no reference, or that the
        bitmap does not call allocated; both are demanded of the caller here. */
    method FreeFrame(f: Frame)
      requires f in refs && refs[f] > 0
      requires f in state && state[f] == Allocated
      modifies this`refs, this`state
      ensures View() == DropFrames(old(View()), {f})
    {
      refs := refs[f := refs[f] - 1];
      if refs[f] == 0 {
        state := state[f := Free];
      }
      assert refs == DropRefs(old(refs), {f});
      assert state == DropStates(old(state), old(refs), {f});
    }

    /** Dropping a list of owned mappings, one reference each. */
    method FreeAll(ms: seq<Mapping>)
      requires Distinct(ms) && Referenced(View(), ms)
      modifies this`refs, this`state
      ensures View() == DropFrames(old(View()), Frames(ms))
    {
      DropNothing(View());
      var i := 0;
      while i < |ms|
        invariant 0 <= i <= |ms|
        invariant View() == DropFrames(old(View()), Frames(ms[..i]))
      {
        PrefixDistinct(ms, i + 1);
        PrefixExtends(ms, i);
        DropOneMore(old(View()), Frames(ms[..i]), ms[i].frame);
        Listed(ms, ms[i]);
        FreeFrame(ms[i].frame);
        i := i + 1;
      }
      assert ms[..|ms|] == ms;
    }

    /** The tables are those of the space. */
    ghost predicate Behind(tables: PageTables.Space, s: SpaceId)
      reads this, tables
    {
      s in spaces && tables.Valid() && tables.leaves == spaces[s].leaves
    }

    /** `Drop for AddressSpace`: the tables go, then the frames. */
    method Exit(s: SpaceId, tables: PageTables.Space)
      requires s in spaces && ValidSpace(spaces[s]) && Referenced(View(), spaces[s].owned) && Behind(tables, s)
      modifies this, tables
      ensures View() == ExitStep(old(View()), s) && Discarded(old(tables.Now()), tables)
    {
      Discard(tables, tables.Now());
      var ms := spaces[s].owned;
      spaces := spaces - {s};
      FreeAll(ms);
    }

    /** `AddressSpace::unmap_mapping` and `remove_owned`, dropping the frame if it was owned. */
    method Unmap(s: SpaceId, p: Page, tables: PageTables.Space) returns (ok: bool)
      requires s in spaces && ValidSpace(spaces[s]) && Referenced(View(), spaces[s].owned)
      requires Behind(tables, s) && p < PageTables.PAGES
      modifies this, tables
      ensures ok == (p in old(spaces)[s].leaves)
      ensures View() == UnmapStep(old(View()), s, p) && Behind(tables, s)
    {
      var removed := tables.Unmap(p);
      if removed.Failed? {
        return false;
      }
      RemoveOwned(s, p, removed.value);
      return true;
    }

    method RemoveOwned(s: SpaceId, p: Page, leaf: Leaf)
      requires s in spaces && ValidSpace(spaces[s]) && Referenced(View(), spaces[s].owned)
      requires p in spaces[s].leaves && leaf == spaces[s].leaves[p]
      modifies this
      ensures View() == UnmapStep(old(View()), s, p) && s in spaces && spaces[s].leaves == old(spaces)[s].leaves - {p}
    {
      var sp := spaces[s];
      var leaves := sp.leaves - {p};
      var d := Position(sp.devices, p);
      if d < |sp.devices| {
        spaces := spaces[s := Space(leaves, sp.owned, SwapRemove(sp.devices, d))];
        return;
      }
      var i := Position(sp.owned, p);
      if i == |sp.owned| {
        spaces := spaces[s := sp.(leaves := leaves)];
        return;
      }
      spaces := spaces[s := Space(leaves, SwapRemove(sp.owned, i), sp.devices)];
      if sp.owned[i].frame == leaf.frame {
        Listed(sp.owned, sp.owned[i]);
        FreeFrame(sp.owned[i].frame);
      }
    }

    /** `AddressSpace::set_leaf_flags`. */
    method Protect(s: SpaceId, p: Page, flags: Flags, tables: PageTables.Space) returns (ok: bool)
      requires Behind(tables, s) && p < PageTables.PAGES
      modifies this`spaces, tables
      ensures ok == (p in old(spaces)[s].leaves)
      ensures View() == ProtectStep(old(View()), s, p, flags) && Behind(tables, s)
    {
      var slot := tables.Lookup(p);
      if slot.Failed? {
        return false;
      }
      var leaf := slot.value;
      var shared := leaf.frame in refs && refs[leaf.frame] > 1;
      var cow := flags.writable && shared;
      leaf := Leaf(leaf.frame, flags.user, flags.writable && !shared, cow, flags.execute, leaf.cache);
      Rewrite(s, p, leaf, tables);
      return true;
    }

    /** Writing one leaf of the space. */
    method Rewrite(s: SpaceId, p: Page, leaf: Leaf, tables: PageTables.Space)
      requires Behind(tables, s) && p < PageTables.PAGES && p in spaces[s].leaves
      modifies this`spaces, tables
      ensures Behind(tables, s)
      ensures spaces == old(spaces)[s := old(spaces)[s].(leaves := old(spaces)[s].leaves[p := leaf])]
    {
      var _ := tables.Rewrite(p, leaf);
      spaces := spaces[s := spaces[s].(leaves := spaces[s].leaves[p := leaf])];
    }

    /** `AddressSpace::resolve_cow`; the allocator offers `copy`. */
    method ResolveCow(s: SpaceId, p: Page, copy: Option<Frame>, tables: PageTables.Space) returns (r: CowResolution)
      requires s in spaces && ValidSpace(spaces[s]) && Referenced(View(), spaces[s].owned)
      requires copy.Some? ==> CanAllocate(View(), copy.value)
      requires refs.Keys <= content.Keys && Behind(tables, s) && p < PageTables.PAGES
      modifies this, tables
      ensures r == NotCow <==> !(p in old(spaces)[s].leaves && old(spaces)[s].leaves[p].cow)
      ensures r == OutOfMemory <==> NoCopyLeft(old(View()), s, p, copy)
      ensures r != Resolved ==> View() == old(View())
      ensures r == Resolved ==> View() == ResolveStep(old(View()), s, p, if copy.Some? then copy.value else 0)
      ensures Behind(tables, s)
    {
      var slot := tables.Lookup(p);
      if slot.Failed? || !slot.value.cow {
        return NotCow;
      }
      var leaf := slot.value;
      if !(leaf.frame in refs && refs[leaf.frame] > 1) {
        Rewrite(s, p, leaf.(cow := false, writable := true), tables);
      } else if copy.None? {
        return OutOfMemory;
      } else {
        CopyPage(s, p, copy.value, tables);
      }
      return Resolved;
    }

    method AllocateCopy(copy: Frame, from: Frame)
      requires from in content
      modifies this`refs, this`state, this`content
      ensures View() == Allocate(old(View()), copy, old(content)[from])
    {
      refs := refs[copy := 1];
      state := state[copy := Allocated];
      content := content[copy := content[from]];
    }

    /** The copy that `resolve_cow` makes of a shared page. */
    method CopyPage(s: SpaceId, p: Page, copy: Frame, tables: PageTables.Space)
      requires s in spaces && ValidSpace(spaces[s]) && Referenced(View(), spaces[s].owned)
      requires p in spaces[s].leaves && spaces[s].leaves[p].cow
      requires spaces[s].leaves[p].frame in refs && refs[spaces[s].leaves[p].frame] > 1
      requires CanAllocate(View(), copy) && refs.Keys <= content.Keys && Behind(tables, s) && p < PageTables.PAGES
      modifies this, tables
      ensures View() == ResolveStep(old(View()), s, p, copy) && Behind(tables, s)
    {
      ghost var w := View();
      var frame, leaf := spaces[s].leaves[p].frame, spaces[s].leaves[p].(cow := false, writable := true, frame := copy);
      assert frame in Frames(spaces[s].owned) by {
        CowPagesAreOwned(spaces[s], p);
      }
      AllocateCopy(copy, frame);
      Rewrite(s, p, leaf, tables);
      Move(s, p, copy, tables);
      assert View() == Allocate(w, copy, w.content[frame]).(spaces := spaces);
      FreeFrame(frame);
    }

    /** The page's entry in the list of owned pages gets the new frame. */
    method Move(s: SpaceId, p: Page, copy: Frame, ghost tables: PageTables.Space)
      requires Behind(tables, s)
      modifies this`spaces
      ensures Behind(tables, s)
      ensures var i, owned := IndexOf(old(spaces)[s].owned, p), old(spaces)[s].owned;
        spaces == old(spaces)[s := old(spaces)[s].(
          owned := if i < |owned| then owned[i := Mapping(p, copy)] else owned)]
    {
      var i := Position(spaces[s].owned, p);
      if i < |spaces[s].owned| {
        spaces := spaces[s := spaces[s].(owned := spaces[s].owned[i := Mapping(p, copy)])];
      }
    }

    /** Linear search of a mapping list. */
    static method Position(ms: seq<Mapping>, p: Page) returns (i: nat)
      ensures i == IndexOf(ms, p)
    {
      i := 0;
      while i < |ms| && ms[i].page != p
        invariant i <= |ms|
        invariant IndexOf(ms, p) == i + IndexOf(ms[i..], p)
      {
        assert ms[i..][1..] == ms[i + 1..];
        i := i + 1;
      }
    }

    /** `AddressSpace::fork_cow`, into the new page tables of the child. `n` is how many owned pages
        of the parent were visited. A fork that succeeds leaves the child's leaves in the tables; one
        that fails frees the tables again. The flags say whether the heap has room for the child's
        lists. How it ends, and whether references are lost, is settled beforehand. */
    method ForkCow(parent: SpaceId, child: SpaceId, tables: PageTables.Space, ownedFit: bool, devicesFit: bool)
      returns (r: ForkResult, n: nat)
      requires parent in spaces && child !in spaces
      requires ValidSpace(spaces[parent]) && Referenced(View(), spaces[parent].owned) && InReach(spaces[parent])
      requires tables.Valid() && tables.leaves == map[]
      modifies this, tables
      ensures Forking(old(View()), View(), parent, child, r, n)
      ensures r == ForkOutcome(old(View()), old(spaces)[parent], |old(tables.pool)|, ownedFit, devicesFit)
      ensures lost == old(lost) <==> !Leaks(old(View()), old(spaces)[parent], |old(tables.pool)|, ownedFit, devicesFit)
      ensures r == Forked ==> tables.Valid() && tables.leaves == spaces[child].leaves
      ensures r != Forked ==> Discarded(old(tables.Now()), tables)
    {
      ghost var w, frames := View(), |tables.pool|;
      r, n := Attempt(parent, child, tables, ownedFit, devicesFit);
      LostExactly(w, View(), parent, child, frames, ownedFit, devicesFit, r, n);
    }

    method Attempt(parent: SpaceId, child: SpaceId, tables: PageTables.Space, ownedFit: bool, devicesFit: bool)
      returns (r: ForkResult, n: nat)
      requires parent in spaces && child !in spaces
      requires ValidSpace(spaces[parent]) && Referenced(View(), spaces[parent].owned) && InReach(spaces[parent])
      requires tables.Valid() && tables.leaves == map[]
      modifies this, tables
      ensures Forking(old(View()), View(), parent, child, r, n)
      ensures r == ForkOutcome(old(View()), old(spaces)[parent], |old(tables.pool)|, ownedFit, devicesFit)
      ensures r == Forked ==> tables.Valid() && tables.leaves == spaces[child].leaves
      ensures r != Forked ==> Discarded(old(tables.Now()), tables)
    {
      ghost var w, was := View(), tables.Now();
      var sp := spaces[parent];
      if !ownedFit && sp.owned != [] {
        NotBegun(parent, child, tables);
        r, n := OutOfFrames, 0;
      } else {
        var childLeaves;
        r, n, childLeaves := BeginFork(parent, child, tables);
        StoppedOutcome(w, sp, |was.pool|, ownedFit, devicesFit, r, n);
        if r == Forked {
          r := EndFork(w, was, parent, child, sp, childLeaves, tables, devicesFit);
        }
      }
    }

    /** All owned pages are shared: the list of devices, the device pages, and the child's space. */
    method EndFork(ghost w: World, ghost was: PageTables.State, ghost parent: SpaceId, child: SpaceId, sp: Space,
                   copied: map<Page, Leaf>, tables: PageTables.Space, devicesFit: bool) returns (r: ForkResult)
      requires OwnedShared(w, View(), parent, copied, tables, was) && sp == w.spaces[parent]
      requires ValidSpace(sp) && Referenced(w, sp.owned) && InReach(sp)
      modifies this, tables
      ensures Forking(w, View(), parent, child, r, |sp.owned|)
      ensures r == AfterOwned(sp, |was.pool|, devicesFit)
      ensures r == Forked ==> child in spaces && tables.Valid() && tables.leaves == spaces[child].leaves
      ensures r != Forked ==> Discarded(was, tables)
    {
      if devicesFit || sp.devices == [] {
        r := FinishFork(w, was, parent, child, sp, copied, tables);
      } else {
        Abandon(w, was, parent, child, sp.owned, tables);
        r := CutOff;
      }
    }

    /** No memory for the list of owned pages: nothing has happened but the new root. */
    method NotBegun(ghost parent: SpaceId, ghost child: SpaceId, tables: PageTables.Space)
      requires parent in spaces && tables.Valid()
      modifies tables
      ensures Forking(View(), View(), parent, child, OutOfFrames, 0) && Discarded(old(tables.Now()), tables)
    {
      MidwayStarts(View(), parent);
      Discard(tables, tables.Now());
    }

    /** No memory for the list of devices: the child is dropped without its list of owned pages. */
    method Abandon(ghost w: World, ghost was: PageTables.State, ghost parent: SpaceId, ghost child: SpaceId,
                   ghost owned: seq<Mapping>, tables: PageTables.Space)
      requires parent in w.spaces && owned == w.spaces[parent].owned && Shareable(w, owned)
      requires w.spaces[parent].devices != []
      requires View() == Midway(w, parent, |owned|, |owned|)
      requires tables.Valid() && PageTables.SameFrames(was, tables.Now())
      modifies this`held, this`lost, tables
      ensures Forking(w, View(), parent, child, CutOff, |owned|) && Discarded(was, tables)
    {
      assert owned[..|owned|] == owned;
      Strand(w, parent, |owned|, owned);
      Discard(tables, was);
    }

    /** The owned pages; the child is dropped if they do not all go through. */
    method BeginFork(parent: SpaceId, ghost child: SpaceId, tables: PageTables.Space)
      returns (r: ForkResult, n: nat, childLeaves: map<Page, Leaf>)
      requires parent in spaces && Shareworthy(View(), spaces[parent]) && InReach(spaces[parent])
      requires tables.Valid() && tables.leaves == map[]
      modifies this`spaces, this`refs, this`state, this`held, this`lost, tables
      ensures r != Forked ==> Forking(old(View()), View(), parent, child, r, n) && Discarded(old(tables.Now()), tables)
      ensures Stopped(old(View()), old(spaces)[parent].owned, |old(tables.pool)|, r, n)
      ensures r == Forked ==> OwnedShared(old(View()), View(), parent, childLeaves, tables, old(tables.Now()))
    {
      ghost var w, was := View(), tables.Now();
      var childOwned;
      r, n, childLeaves, childOwned := ShareOwned(parent, tables);
      if r == Forked {
        SharedSoFar(w, w.spaces[parent], childLeaves);
      } else {
        StoppedEarly(w, View(), parent, child, r, n);
        Discard(tables, was);
      }
    }

    /** After the owned pages: the device pages, and the child's space. */
    method FinishFork(ghost w: World, ghost was: PageTables.State, ghost parent: SpaceId, child: SpaceId, sp: Space,
                      copied: map<Page, Leaf>, tables: PageTables.Space) returns (r: ForkResult)
      requires OwnedShared(w, View(), parent, copied, tables, was) && sp == w.spaces[parent]
      requires ValidSpace(sp) && Referenced(w, sp.owned) && InReach(sp)
      modifies this, tables
      ensures Forking(w, View(), parent, child, r, |sp.owned|)
      ensures r == Forked ==> child in spaces && tables.Valid() && tables.leaves == spaces[child].leaves
      ensures r != Forked ==> r == OutOfFrames && Discarded(was, tables)
      ensures r == Forked <==> TableCount(Pages(sp.owned) + Pages(sp.devices)) <= |was.pool|
    {
      var ok, childLeaves, childDevices := ShareDevices(sp.leaves, sp.devices, Pages(sp.owned), copied, tables, was);
      if ok {
        AddChild(w, parent, child, sp, childLeaves);
        r := Forked;
      } else {
        Undo(w, parent, sp.owned);
        Discard(tables, was);
        r := OutOfFrames;
      }
    }

    method AddChild(ghost w: World, ghost parent: SpaceId, child: SpaceId, sp: Space, childLeaves: map<Page, Leaf>)
      requires parent in w.spaces && sp == w.spaces[parent] && sp.leaves.Keys == Pages(sp.owned) + Pages(sp.devices)
      requires View() == Midway(w, parent, |sp.owned|, |sp.owned|)
      requires DeviceCopy(sp.leaves, childLeaves, Pages(sp.owned), Pages(sp.devices))
      modifies this`spaces
      ensures View() == ForkStep(w, parent, child) && child in spaces && spaces[child].leaves == childLeaves
    {
      ForkDone(w, parent, child, childLeaves);
      ghost var mid := View();
      spaces := spaces[child := Space(childLeaves, sp.owned, sp.devices)];
      assert View() == mid.(spaces := mid.spaces[child := Space(childLeaves, sp.owned, sp.devices)]);
    }

    /** Dropping the child when a device page could not be mapped. */
    method Undo(ghost w: World, ghost parent: SpaceId, childOwned: seq<Mapping>)
      requires parent in w.spaces && childOwned == w.spaces[parent].owned && Shareworthy(w, w.spaces[parent])
      requires View() == Midway(w, parent, |childOwned|, |childOwned|)
      modifies this`refs, this`state
      ensures View() == ForkFailedStep(w, parent, |childOwned|)
    {
      assert childOwned[..|childOwned|] == childOwned;
      DropUndoesAdd(ForkFailedStep(w, parent, |childOwned|), Frames(childOwned));
      FreeAll(childOwned);
    }

    /** The child's tables go when it is dropped. */
    static method Discard(tables: PageTables.Space, ghost was: PageTables.State)
      requires tables.Valid() && PageTables.SameFrames(was, tables.Now())
      modifies tables
      ensures Discarded(was, tables)
    {
      forall f: nat
        ensures f in tables.pool || f in tables.memory <==> f in was.pool || f in was.memory
      {
        assert f in tables.pool + tables.memory.Keys <==> f in was.pool + was.memory.Keys;
      }
      tables.Teardown();
    }

    /** The loop over the parent's owned pages. */
    method ShareOwned(parent: SpaceId, tables: PageTables.Space)
      returns (r: ForkResult, n: nat, childLeaves: map<Page, Leaf>, childOwned: seq<Mapping>)
      requires parent in spaces && Shareworthy(View(), spaces[parent]) && InReach(spaces[parent])
      requires tables.Valid() && tables.leaves == map[]
      modifies this`spaces, this`refs, this`state, this`held, this`lost, tables
      ensures Visited(old(View()), View(), parent, r, n)
      ensures r == Forked ==> childOwned == old(spaces)[parent].owned && n == |childOwned|
      ensures r == Forked ==> ChildSoFar(old(View()), old(spaces)[parent].leaves, childLeaves, childOwned)
      ensures tables.Valid() && PageTables.SameFrames(old(tables.Now()), tables.Now())
      ensures r == Forked ==> Carried(old(tables.Now()), tables, childLeaves)
      ensures Stopped(old(View()), old(spaces)[parent].owned, |old(tables.pool)|, r, n)
    {
      ghost var w, was := View(), tables.Now();
      var owned := spaces[parent].owned;
      childLeaves, childOwned, n, r := map[], [], 0, Forked;
      MidwayStarts(w, parent);
      while n < |owned|
        invariant n <= |owned| && r == Forked
        invariant SharedSome(w, View(), parent, n, childLeaves, childOwned, tables, was)
      {
        r, n, childLeaves, childOwned := Pass(w, parent, n, owned[n], childLeaves, childOwned, tables, was);
        if r != Forked {
          return;
        }
      }
      assert childOwned == owned;
    }

    /** One pass of that loop. */
    method Pass(ghost w: World, parent: SpaceId, n: nat, m: Mapping, leaves: map<Page, Leaf>, ms: seq<Mapping>,
                tables: PageTables.Space, ghost was: PageTables.State)
      returns (r: ForkResult, next: nat, childLeaves: map<Page, Leaf>, childOwned: seq<Mapping>)
      requires SharedSome(w, View(), parent, n, leaves, ms, tables, was)
      requires n < |w.spaces[parent].owned| && m == w.spaces[parent].owned[n]
      requires Shareworthy(w, w.spaces[parent]) && InReach(w.spaces[parent])
      modifies this`spaces, this`refs, this`state, this`held, this`lost, tables
      ensures tables.Valid() && PageTables.SameFrames(was, tables.Now()) && next <= |w.spaces[parent].owned|
      ensures r == Forked ==> next == n + 1 && SharedSome(w, View(), parent, next, childLeaves, childOwned, tables, was)
      ensures r != Forked ==> Visited(w, View(), parent, r, next)
      ensures r != Forked ==> Stopped(w, w.spaces[parent].owned, |was.pool|, r, next)
    {
      ghost var owned := w.spaces[parent].owned;
      PageIsNew(owned, n);
      var leaf;
      r, leaf := Visit(w, parent, n, n + 1, m, ms, tables, was, leaves);
      next, childLeaves, childOwned := n, leaves, ms;
      if r == CutOff {
        return;
      }
      CopyExtends(w, w.spaces[parent].leaves, leaves, owned, n);
      next, childLeaves, childOwned := n + 1, leaves[m.page := leaf], ms + [m];
    }

    /** Share the page, then map it into the child if the frames suffice for
        the tables, else undo. */
    method Visit(ghost w: World, parent: SpaceId, ghost n: nat, ghost next: nat, m: Mapping, childOwned: seq<Mapping>,
                 tables: PageTables.Space, ghost was: PageTables.State, ghost leaves: map<Page, Leaf>)
      returns (r: ForkResult, leaf: Leaf)
      requires parent in w.spaces && n < |w.spaces[parent].owned| && m == w.spaces[parent].owned[n]
      requires Shareworthy(w, w.spaces[parent]) && InReach(w.spaces[parent])
      requires childOwned == w.spaces[parent].owned[..n] && next == n + 1
      requires View() == Midway(w, parent, n, n) && Carried(was, tables, leaves) && m.page !in leaves
      modifies this`spaces, this`refs, this`state, this`held, this`lost, tables
      ensures m.page in w.spaces[parent].leaves && leaf == Share(w.spaces[parent].leaves[m.page])
      ensures r == Forked ==> View() == Midway(w, parent, next, next)
      ensures r == OutOfFrames ==> View() == ForkFailedStep(w, parent, next)
      ensures r == CutOff ==> View() == ForkLeakedStep(w, parent, n)
      ensures m.frame in w.refs && (r == CutOff <==> w.refs[m.frame] >= REF_MAX)
      ensures tables.Valid() && PageTables.SameFrames(was, tables.Now())
      ensures r == Forked ==> Carried(was, tables, leaves[m.page := leaf])
      ensures r == OutOfFrames ==> |was.pool| < TableCount(leaves[m.page := leaf].Keys)
    {
      var shared;
      shared, leaf := ShareOne(w, parent, n, m);
      if !shared {
        Strand(w, parent, n, childOwned);
        return CutOff, leaf;
      }
      var ok := MapPage(tables, m.page, leaf, was, leaves);
      if ok {
        r := Forked;
      } else {
        Unshare(w, parent, m, childOwned, next);
        r := OutOfFrames;
      }
    }

    /** The child is dropped before it is given its list. */
    ghost method Strand(w: World, parent: SpaceId, n: nat, childOwned: seq<Mapping>)
      requires parent in w.spaces && n <= |w.spaces[parent].owned| && childOwned == w.spaces[parent].owned[..n]
      requires View() == Midway(w, parent, Visiting(w.spaces[parent].owned, n), n)
      modifies this`held, this`lost
      ensures View() == ForkLeakedStep(w, parent, n)
    {
      held, lost := held + multiset(Frames(childOwned)), lost + multiset(Frames(childOwned));
    }

    /** `map_page_in_root` on a page the child does not have yet. */
    static method MapPage(tables: PageTables.Space, page: Page, leaf: Leaf, ghost was: PageTables.State,
                          ghost leaves: map<Page, Leaf>) returns (ok: bool)
      requires Carried(was, tables, leaves) && page < PageTables.PAGES && page !in leaves
      modifies tables
      ensures tables.Valid() && PageTables.SameFrames(was, tables.Now())
      ensures ok <==> TableCount(leaves[page := leaf].Keys) <= |was.pool|
      ensures ok ==> Carried(was, tables, leaves[page := leaf])
    {
      assert leaves[page := leaf].Keys == leaves.Keys + {page};
      MissingInSpace(tables.Now(), tables.root, tables.leaves, leaves.Keys, page);
      var mapped := tables.Map(page, leaf);
      ok := mapped.Done?;
    }

    /** One parent page: writable becomes read-only and COW, then one more reference. */
    method ShareOne(ghost w: World, parent: SpaceId, ghost n: nat, m: Mapping) returns (shared: bool, leaf: Leaf)
      requires parent in w.spaces && n < |w.spaces[parent].owned| && m == w.spaces[parent].owned[n]
      requires Shareworthy(w, w.spaces[parent])
      requires View() == Midway(w, parent, n, n)
      modifies this`spaces, this`refs
      ensures m.page in w.spaces[parent].leaves && leaf == Share(w.spaces[parent].leaves[m.page])
      ensures m.frame in w.refs && shared == (w.refs[m.frame] < REF_MAX)
      ensures View() == Midway(w, parent, n + 1, if shared then n + 1 else n)
    {
      MidwayExtends(w, parent, n);
      leaf := spaces[parent].leaves[m.page];
      if leaf.writable {
        leaf := leaf.(writable := false, cow := true);
      }
      spaces := spaces[parent := spaces[parent].(leaves := spaces[parent].leaves[m.page := leaf])];
      shared := refs[m.frame] < REF_MAX;
      if shared {
        refs := refs[m.frame := refs[m.frame] + 1];
      }
    }

    /** The loop over the parent's device pages: mapped into the child as they are. */
    static method ShareDevices(leaves: map<Page, Leaf>, devices: seq<Mapping>, ghost owned: set<Page>,
                               copied: map<Page, Leaf>, tables: PageTables.Space, ghost was: PageTables.State)
      returns (ok: bool, childLeaves: map<Page, Leaf>, childDevices: seq<Mapping>)
      requires Placeable(leaves, devices, owned) && Placed(leaves, copied, owned, [], tables, was)
      modifies tables
      ensures tables.Valid() && PageTables.SameFrames(was, tables.Now())
      ensures ok ==> childDevices == devices && tables.leaves == childLeaves
      ensures ok ==> DeviceCopy(leaves, childLeaves, owned, Pages(devices))
      ensures ok <==> TableCount(owned + Pages(devices)) <= |was.pool|
    {
      childLeaves, childDevices := copied, [];
      var d := 0;
      while d < |devices|
        invariant d <= |devices| && childDevices == devices[..d]
        invariant Placed(leaves, childLeaves, owned, childDevices, tables, was)
      {
        ok, childLeaves, childDevices :=
          ShareDevice(leaves, devices, owned, childLeaves, childDevices, d, tables, was);
        if !ok {
          return;
        }
        d := d + 1;
      }
      assert childDevices == devices;
      ok := true;
    }

    /** One pass of that loop. */
    static method ShareDevice(leaves: map<Page, Leaf>, devices: seq<Mapping>, ghost owned: set<Page>,
                              copied: map<Page, Leaf>, placed: seq<Mapping>, d: nat, tables: PageTables.Space,
                              ghost was: PageTables.State)
      returns (ok: bool, childLeaves: map<Page, Leaf>, childDevices: seq<Mapping>)
      requires Placeable(leaves, devices, owned) && d < |devices| && placed == devices[..d]
      requires Placed(leaves, copied, owned, placed, tables, was)
      modifies tables
      ensures tables.Valid() && PageTables.SameFrames(was, tables.Now()) && childDevices == devices[..d + 1]
      ensures ok ==> Placed(leaves, childLeaves, owned, childDevices, tables, was)
      ensures !ok ==> |was.pool| < TableCount(owned + Pages(devices))
    {
      var m := devices[d];
      DeviceCopyExtends(leaves, copied, owned, devices, d);
      ok := MapPage(tables, m.page, leaves[m.page], was, copied);
      childLeaves, childDevices := copied[m.page := leaves[m.page]], placed + [m];
      if !ok {
        PrefixPages(devices, d + 1);
        CountGrows(childLeaves.Keys, owned + Pages(devices));
      }
    }

    /** The failure exit of the fork loop: give back the reference just taken and drop the
        child with the list it has so far. */
    method Unshare(ghost w: World, ghost parent: SpaceId, m: Mapping, childOwned: seq<Mapping>, ghost n: nat)
      requires parent in w.spaces && Shareworthy(w, w.spaces[parent])
      requires 0 < n <= |w.spaces[parent].owned|
      requires m == w.spaces[parent].owned[n - 1] && childOwned == w.spaces[parent].owned[..n - 1]
      requires View() == Midway(w, parent, n, n)
      modifies this`refs, this`state
      ensures View() == ForkFailedStep(w, parent, n)
    {
      UnshareFits(w, parent, n);
      ghost var before := View();
      FreeFrame(m.frame);
      DropInTwo(before, {m.frame}, Frames(childOwned));
      FreeAll(childOwned);
    }
  }

  // ---- the fork loop's intermediate states ---------------------------------------

  /** What the loop over the owned pages relies on. */
  ghost predicate Shareworthy(w: World, sp: Space) {
    Distinct(sp.owned) && Backs(sp.leaves, sp.owned) && Referenced(w, sp.owned)
  }

  /** What a fork leaves behind, by how it ended. It ends in `CutOff` only at a frame whose count
      is saturated or after all owned pages, and in `Forked` only if no count was saturated. */
  ghost predicate Forking(w: World, w': World, parent: SpaceId, child: SpaceId, r: ForkResult, n: nat)
    requires parent in w.spaces
  {
    var owned := w.spaces[parent].owned;
    && n <= |owned|
    && match r
       case Forked => Shareable(w, owned) && w' == ForkStep(w, parent, child)
       case OutOfFrames => w' == ForkFailedStep(w, parent, n)
       case CutOff => CutAt(w, w.spaces[parent], n) && w' == ForkLeakedStep(w, parent, n)
  }

  /** The tables hold the leaves, and have taken the frames those need. */
  ghost predicate Carried(was: PageTables.State, tables: PageTables.Space, leaves: map<Page, Leaf>)
    reads tables
  {
    && tables.Valid() && PageTables.SameFrames(was, tables.Now())
    && tables.leaves == leaves && |tables.pool| + TableCount(leaves.Keys) == |was.pool|
  }

  /** After the loop over the owned pages: all are shared and in the child's tables. */
  ghost predicate OwnedShared(w: World, now: World, parent: SpaceId, copied: map<Page, Leaf>,
                              tables: PageTables.Space, was: PageTables.State)
    reads tables
  {
    && parent in w.spaces && Carried(was, tables, copied)
    && var sp := w.spaces[parent];
    && now == Midway(w, parent, |sp.owned|, |sp.owned|) && Shareable(w, sp.owned)
    && DeviceCopy(sp.leaves, copied, Pages(sp.owned), {})
  }

  /** Device pages that can be added to a copy of the owned pages. */
  ghost predicate Placeable(leaves: map<Page, Leaf>, devices: seq<Mapping>, owned: set<Page>) {
    && Backs(leaves, devices) && DistinctPages(devices) && owned !! Pages(devices)
    && forall p :: p in leaves ==> p < PageTables.PAGES
  }

  /** The tables hold the owned pages and these device pages. */
  ghost predicate Placed(leaves: map<Page, Leaf>, copied: map<Page, Leaf>, owned: set<Page>, devices: seq<Mapping>,
                         tables: PageTables.Space, was: PageTables.State)
    reads tables
  {
    DeviceCopy(leaves, copied, owned, Pages(devices)) && Carried(was, tables, copied)
  }

  // ---- how a fork ends -----------------------------------------------------------

  ghost predicate Saturated(w: World, f: Frame) {
    Refcount(w, f) >= REF_MAX
  }

  /** How many of the mappings can be shared before one whose count is saturated. */
  ghost function Sharing(w: World, ms: seq<Mapping>): (k: nat)
    ensures k <= |ms|
  {
    if ms == [] then 0
    else
      var n := |ms| - 1;
      var k := Sharing(w, ms[..n]);
      if k == n && !Saturated(w, ms[n].frame) then n + 1 else k
  }

  /** How a fork ends, from what there is before it: `frames` to build tables from, and room in the
      heap for the lists (an empty list needs none). */
  ghost function ForkOutcome(w: World, sp: Space, frames: nat, ownedFit: bool, devicesFit: bool): ForkResult {
    var k := Sharing(w, sp.owned);
    if !ownedFit && sp.owned != [] then OutOfFrames
    else if frames < TableCount(Pages(sp.owned[..k])) then OutOfFrames
    else if k < |sp.owned| then CutOff
    else AfterOwned(sp, frames, devicesFit)
  }

  ghost function AfterOwned(sp: Space, frames: nat, devicesFit: bool): ForkResult {
    if !devicesFit && sp.devices != [] then CutOff
    else if frames < TableCount(Pages(sp.owned) + Pages(sp.devices)) then OutOfFrames
    else Forked
  }

  /** A fork loses references: it is cut off after sharing some page. */
  ghost predicate Leaks(w: World, sp: Space, frames: nat, ownedFit: bool, devicesFit: bool) {
    && ForkOutcome(w, sp, frames, ownedFit, devicesFit) == CutOff
    && sp.owned != [] && !Saturated(w, sp.owned[0].frame)
  }

  /** Where a fork can be cut off: at the first page whose count is saturated, or before the devices. */
  ghost predicate CutAt(w: World, sp: Space, n: nat) {
    && n <= |sp.owned| && Shareable(w, sp.owned[..n])
    && if n < |sp.owned| then Saturated(w, sp.owned[n].frame) else sp.devices != []
  }

  /** Why the loop over the owned pages stopped. */
  ghost predicate Stopped(w: World, owned: seq<Mapping>, frames: nat, r: ForkResult, n: nat) {
    && n <= |owned| && Shareable(w, owned[..n])
    && (r == OutOfFrames <==> frames < TableCount(Pages(owned[..n])))
    && (r == CutOff ==> n < |owned| && Saturated(w, owned[n].frame))
    && (r == Forked ==> n == |owned|)
  }

  /** Every frame is free again. */
  ghost predicate Discarded(was: PageTables.State, tables: PageTables.Space)
    reads tables
  {
    forall f: nat :: f in tables.pool <==> f in was.pool || f in was.memory
  }

  /** The space's pages have page-table paths. */
  ghost predicate InReach(sp: Space) {
    forall p :: p in sp.leaves ==> p < PageTables.PAGES
  }

  /** What the loop over the owned pages leaves behind after `n` of them. */
  ghost predicate Visited(w: World, w': World, parent: SpaceId, r: ForkResult, n: nat)
    requires parent in w.spaces
  {
    var owned := w.spaces[parent].owned;
    && n <= |owned|
    && match r
       case Forked => w' == Midway(w, parent, n, n)
       case OutOfFrames => w' == ForkFailedStep(w, parent, n)
       case CutOff =>
         n < |owned| && Saturated(w, owned[n].frame) && w' == ForkLeakedStep(w, parent, n)
  }

  /** The loop over the owned pages after `n` of them. */
  ghost predicate SharedSome(w: World, now: World, parent: SpaceId, n: nat, leaves: map<Page, Leaf>, ms: seq<Mapping>,
                             tables: PageTables.Space, was: PageTables.State)
    reads tables
  {
    && parent in w.spaces && n <= |w.spaces[parent].owned| && ms == w.spaces[parent].owned[..n]
    && now == Midway(w, parent, n, n) && ChildSoFar(w, w.spaces[parent].leaves, leaves, ms)
    && Carried(was, tables, leaves)
  }

  /** The child's leaves and list after some of the owned pages. */
  ghost predicate ChildSoFar(w: World, leaves: map<Page, Leaf>, copy: map<Page, Leaf>, ms: seq<Mapping>) {
    SharedCopy(leaves, copy, ms) && Shareable(w, ms)
  }

  ghost predicate Shareable(w: World, ms: seq<Mapping>) {
    forall f :: f in Frames(ms) ==> f in w.refs && w.refs[f] < REF_MAX
  }

  /** The world with `visited` parent pages turned copy-on-write and `taken` references
      taken for the child. */
  ghost function Midway(w: World, parent: SpaceId, visited: nat, taken: nat): World
    requires parent in w.spaces && visited <= |w.spaces[parent].owned| && taken <= |w.spaces[parent].owned|
  {
    ForkFailedStep(w, parent, visited).(refs := AddRefs(w.refs, Frames(w.spaces[parent].owned[..taken])))
  }

  /** `copy` holds exactly the pages of `ms`, as the fork shares them. */
  ghost predicate SharedCopy(leaves: map<Page, Leaf>, copy: map<Page, Leaf>, ms: seq<Mapping>) {
    && copy.Keys == Pages(ms)
    && forall p :: p in copy ==> p in leaves && copy[p] == Share(leaves[p])
  }

  lemma CopyExtends(w: World, leaves: map<Page, Leaf>, copy: map<Page, Leaf>, ms: seq<Mapping>, n: nat)
    requires Backs(leaves, ms) && n < |ms| && SharedCopy(leaves, copy, ms[..n]) && Shareable(w, ms[..n])
    requires ms[n].frame in w.refs && w.refs[ms[n].frame] < REF_MAX
    ensures ms[..n] + [ms[n]] == ms[..n + 1]
    ensures Share(leaves[ms[n].page]).frame == ms[n].frame
    ensures SharedCopy(leaves, copy[ms[n].page := Share(leaves[ms[n].page])], ms[..n + 1])
    ensures Shareable(w, ms[..n + 1])
  {
    PrefixExtends(ms, n);
  }

  /** `copy` holds the owned pages as fork shares them and the device pages as they are. */
  ghost predicate DeviceCopy(leaves: map<Page, Leaf>, copy: map<Page, Leaf>, owned: set<Page>, devices: set<Page>) {
    && copy.Keys == owned + devices
    && copy.Keys <= leaves.Keys
    && forall p :: p in copy ==> copy[p] == if p in owned then Share(leaves[p]) else leaves[p]
  }

  lemma DeviceCopyExtends(leaves: map<Page, Leaf>, copy: map<Page, Leaf>, owned: set<Page>, ms: seq<Mapping>, d: nat)
    requires d < |ms| && Backs(leaves, ms) && DistinctPages(ms) && owned !! Pages(ms)
    requires DeviceCopy(leaves, copy, owned, Pages(ms[..d]))
    ensures ms[d].page in leaves && leaves[ms[d].page].frame == ms[d].frame && ms[d].page !in copy
    ensures ms[..d + 1] == ms[..d] + [ms[d]]
    ensures DeviceCopy(leaves, copy[ms[d].page := leaves[ms[d].page]], owned, Pages(ms[..d + 1]))
  {
    Listed(ms, ms[d]);
    PrefixExtends(ms, d);
    PageIsNew(ms, d);
  }

  lemma {:induction false} PageIsNew(ms: seq<Mapping>, d: nat)
    requires DistinctPages(ms) && d < |ms|
    ensures ms[d].page !in Pages(ms[..d])
  {
    var n := |ms| - 1;
    if d < n {
      PageIsNew(ms[..n], d);
      assert ms[..n][..d] == ms[..d];
    }
  }

  lemma DeviceCopyDone(sp: Space, copy: map<Page, Leaf>)
    requires DeviceCopy(sp.leaves, copy, Pages(sp.owned), Pages(sp.devices))
    requires sp.leaves.Keys == Pages(sp.owned) + Pages(sp.devices)
    ensures copy == ShareLeaves(sp.leaves, Pages(sp.owned))
  {
  }

  lemma SharedSoFar(w: World, sp: Space, copied: map<Page, Leaf>)
    requires ChildSoFar(w, sp.leaves, copied, sp.owned)
    ensures DeviceCopy(sp.leaves, copied, Pages(sp.owned), {}) && Shareable(w, sp.owned)
  {
  }

  lemma StoppedEarly(w: World, w': World, parent: SpaceId, child: SpaceId, r: ForkResult, n: nat)
    requires parent in w.spaces && Visited(w, w', parent, r, n) && r != Forked
    requires n <= |w.spaces[parent].owned| && Shareable(w, w.spaces[parent].owned[..n])
    ensures Forking(w, w', parent, child, r, n)
  {
  }

  lemma {:induction false} PrefixPages(ms: seq<Mapping>, n: nat)
    requires n <= |ms|
    ensures Pages(ms[..n]) <= Pages(ms)
  {
    if n == |ms| {
      assert ms[..n] == ms;
    } else {
      PrefixPages(ms[..|ms| - 1], n);
      assert ms[..|ms| - 1][..n] == ms[..n];
    }
  }

  /** `Sharing` stops at the first mapping whose count is saturated. */
  lemma {:induction false} SharingIs(w: World, ms: seq<Mapping>, n: nat)
    requires n <= |ms| && Shareable(w, ms[..n]) && (n < |ms| ==> Saturated(w, ms[n].frame))
    ensures Sharing(w, ms) == n
  {
    var last := |ms| - 1;
    if n == |ms| && n > 0 {
      assert ms[..n] == ms && ms[..last][..last] == ms[..last];
      Listed(ms, ms[last]);
      SharingIs(w, ms[..last], last);
    } else if n < |ms| {
      assert ms[..last][..n] == ms[..n];
      if n < last {
        SharingIs(w, ms[..last], n);
      } else {
        SharingIs(w, ms[..last], last);
      }
    }
  }

  lemma {:induction false} SharingAtLeast(w: World, ms: seq<Mapping>, n: nat)
    requires n <= |ms| && Shareable(w, ms[..n])
    ensures n <= Sharing(w, ms) <= |ms|
  {
    var last := |ms| - 1;
    if n == |ms| {
      SharingIs(w, ms, n);
    } else {
      assert ms[..last][..n] == ms[..n];
      SharingAtLeast(w, ms[..last], n);
    }
  }

  /** Where the loop stops settles how the fork ends, but for the devices. */
  lemma StoppedOutcome(w: World, sp: Space, frames: nat, ownedFit: bool, devicesFit: bool, r: ForkResult, n: nat)
    requires Stopped(w, sp.owned, frames, r, n) && (ownedFit || sp.owned == [])
    ensures ForkOutcome(w, sp, frames, ownedFit, devicesFit) ==
            if r == Forked then AfterOwned(sp, frames, devicesFit) else r
  {
    var k := Sharing(w, sp.owned);
    if r == OutOfFrames {
      SharingAtLeast(w, sp.owned, n);
      assert sp.owned[..k][..n] == sp.owned[..n];
      PrefixPages(sp.owned[..k], n);
      CountGrows(Pages(sp.owned[..n]), Pages(sp.owned[..k]));
    } else {
      SharingIs(w, sp.owned, n);
    }
  }

  /** Three frames a page are always enough. Then references are lost exactly when some page is
      shared and either a later count is saturated or the list of devices does not fit. */
  lemma EnoughFrames(w: World, sp: Space, frames: nat, devicesFit: bool)
    requires 3 * (|sp.owned| + |sp.devices|) <= frames && Referenced(w, sp.owned)
    ensures ForkOutcome(w, sp, frames, true, devicesFit) != OutOfFrames
    ensures Leaks(w, sp, frames, true, devicesFit) <==>
      && sp.owned != [] && !Saturated(w, sp.owned[0].frame)
      && !(Shareable(w, sp.owned) && (devicesFit || sp.devices == []))
  {
    var k := Sharing(w, sp.owned);
    FewPages(sp.owned[..k]);
    FewPages(sp.owned);
    FewPages(sp.devices);
    FewTables(Pages(sp.owned[..k]));
    FewTables(Pages(sp.owned) + Pages(sp.devices));
    AllShared(w, sp.owned);
  }

  lemma {:induction false} FewPages(ms: seq<Mapping>)
    ensures |Pages(ms)| <= |ms|
  {
    if ms != [] {
      FewPages(ms[..|ms| - 1]);
    }
  }

  lemma {:induction false} AllShared(w: World, ms: seq<Mapping>)
    requires Referenced(w, ms)
    ensures Sharing(w, ms) == |ms| <==> Shareable(w, ms)
  {
    if ms != [] {
      AllShared(w, ms[..|ms| - 1]);
    }
  }

  /** References are lost exactly when the fork is cut off after sharing a page. */
  lemma LostExactly(w: World, w': World, parent: SpaceId, child: SpaceId, frames: nat, ownedFit: bool,
                    devicesFit: bool, r: ForkResult, n: nat)
    requires parent in w.spaces && Forking(w, w', parent, child, r, n) && Referenced(w, w.spaces[parent].owned)
    requires r == ForkOutcome(w, w.spaces[parent], frames, ownedFit, devicesFit)
    ensures w'.lost == w.lost <==> !Leaks(w, w.spaces[parent], frames, ownedFit, devicesFit)
  {
    var owned := w.spaces[parent].owned;
    if r == CutOff && n > 0 {
      Listed(owned[..n], owned[..n][0]);
      assert w'.lost[owned[0].frame] == w.lost[owned[0].frame] + 1;
    }
  }

  /** With every page shared and the child's space in place the fork is done. */
  lemma ForkDone(w: World, parent: SpaceId, child: SpaceId, childLeaves: map<Page, Leaf>)
    requires parent in w.spaces
    requires w.spaces[parent].leaves.Keys == Pages(w.spaces[parent].owned) + Pages(w.spaces[parent].devices)
    requires DeviceCopy(w.spaces[parent].leaves, childLeaves, Pages(w.spaces[parent].owned),
        Pages(w.spaces[parent].devices))
    ensures var sp := w.spaces[parent];
      var mid := Midway(w, parent, |sp.owned|, |sp.owned|);
      mid.(spaces := mid.spaces[child := Space(childLeaves, sp.owned, sp.devices)]) == ForkStep(w, parent, child)
  {
    var sp := w.spaces[parent];
    assert sp.owned[..|sp.owned|] == sp.owned;
    DeviceCopyDone(sp, childLeaves);
  }

  lemma MidwayStarts(w: World, parent: SpaceId)
    requires parent in w.spaces
    ensures Midway(w, parent, 0, 0) == w
  {
    var sp := w.spaces[parent];
    assert ShareLeaves(sp.leaves, Pages(sp.owned[..0])) == sp.leaves;
    assert AddRefs(w.refs, Frames(sp.owned[..0])) == w.refs;
  }

  lemma MidwayExtends(w: World, parent: SpaceId, n: nat)
    requires parent in w.spaces && Shareworthy(w, w.spaces[parent]) && n < |w.spaces[parent].owned|
    ensures var m := w.spaces[parent].owned[n];
      var before, after := Midway(w, parent, n, n), Midway(w, parent, n + 1, n + 1);
      && m.page in before.spaces[parent].leaves
      && before.spaces[parent].leaves[m.page] == w.spaces[parent].leaves[m.page]
      && after.spaces == before.spaces[parent := before.spaces[parent].(
                           leaves := before.spaces[parent].leaves[m.page := Share(w.spaces[parent].leaves[m.page])])]
      && m.frame in w.refs && m.frame in before.refs && before.refs[m.frame] == w.refs[m.frame]
      && after.refs == before.refs[m.frame := w.refs[m.frame] + 1]
  {
    var sp := w.spaces[parent];
    var m := sp.owned[n];
    PrefixDistinct(sp.owned, n + 1);
    PrefixExtends(sp.owned, n);
    Listed(sp.owned, m);
    ShareExtends(sp.leaves, Pages(sp.owned[..n]), m.page);
    AddExtends(w.refs, Frames(sp.owned[..n]), m.frame);
  }

  lemma UnshareFits(w: World, parent: SpaceId, n: nat)
    requires parent in w.spaces && Shareworthy(w, w.spaces[parent])
    requires 0 < n <= |w.spaces[parent].owned|
    ensures var ms := w.spaces[parent].owned;
      var mid := Midway(w, parent, n, n);
      && Distinct(ms[..n - 1])
      && Referenced(mid, ms[..n])
      && ms[n - 1].frame !in Frames(ms[..n - 1])
      && Referenced(DropFrames(mid, {ms[n - 1].frame}), ms[..n - 1])
      && DropFrames(mid, {ms[n - 1].frame} + Frames(ms[..n - 1])) == ForkFailedStep(w, parent, n)
  {
    var ms := w.spaces[parent].owned;
    var rest, last := ms[..n - 1], ms[n - 1];
    assert Distinct(rest) && last.frame !in Frames(rest) && Frames(ms[..n]) == Frames(rest) + {last.frame} by {
      PrefixDistinct(ms, n);
      PrefixExtends(ms, n - 1);
    }
    assert Frames(ms[..n]) <= Frames(ms) by {
      PrefixFrames(ms, n);
    }
    UnshareDrops(ForkFailedStep(w, parent, n), Frames(rest), last.frame, Frames(ms[..n]));
  }

  lemma UnshareDrops(w: World, rest: set<Frame>, f: Frame, all: set<Frame>)
    requires f !in rest && all == rest + {f}
    requires forall g :: g in all ==> g in w.refs && w.refs[g] > 0 && g in w.state && w.state[g] == Allocated
    ensures var mid := w.(refs := AddRefs(w.refs, all));
      && (forall g :: g in all ==> g in mid.refs && mid.refs[g] > 0)
      && (forall g :: g in rest ==>
            && g in DropFrames(mid, {f}).refs && DropFrames(mid, {f}).refs[g] > 0
            && DropFrames(mid, {f}).state[g] == Allocated)
      && DropFrames(mid, {f} + rest) == w
  {
    DropUndoesAdd(w, all);
    assert {f} + rest == all;
  }

  lemma DropInTwo(w: World, fs: set<Frame>, gs: set<Frame>)
    requires fs !! gs
    ensures DropFrames(DropFrames(w, fs), gs) == DropFrames(w, fs + gs)
  {
    var a, b := DropFrames(DropFrames(w, fs), gs), DropFrames(w, fs + gs);
    assert a.refs == b.refs;
    assert a.state == b.state;
  }
}
