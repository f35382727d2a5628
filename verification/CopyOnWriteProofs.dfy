/** Runs of the copy-on-write protocol, and the eager-copy kernel they refine. */
module CopyOnWriteProofs {
  import opened Bytes
  import opened Outcomes
  import opened PageLeaves
  import opened CopyOnWrite

  // ---- the invariant ---------------------------------------------------------------

  /** The address spaces that own a mapping of `f`. */
  ghost function Users(w: World, f: Frame): set<SpaceId> {
    set s | s in w.spaces && f in Frames(w.spaces[s].owned)
  }

  /** Memory the allocator never hands out: untracked, or reserved for good. */
  predicate IsDevice(w: World, f: Frame) {
    f in w.state ==> w.state[f] == Reserved
  }

  /** Counts: one per owning mapping and one per kernel holder; allocated while positive. */
  ghost predicate CountsExact(w: World) {
    && w.refs.Keys == w.state.Keys && w.refs.Keys <= w.content.Keys
    && (forall f :: f in w.refs ==> w.refs[f] == |Users(w, f)| + w.held[f])
    && (forall f :: f in w.refs ==> (w.state[f] == Allocated <==> w.refs[f] > 0))
    && (forall f :: f in w.held ==> f in w.refs)
  }

  /** Owned frames are tracked, and only a sole reference may be hardware-writable. */
  ghost predicate OwnedOk(refs: map<Frame, nat>, sp: Space) {
    && Frames(sp.owned) <= refs.Keys
    && forall p :: p in Pages(sp.owned) && p in sp.leaves && sp.leaves[p].writable ==>
         sp.leaves[p].frame in refs && refs[sp.leaves[p].frame] == 1
  }

  ghost predicate DevicesOk(w: World, sp: Space) {
    forall p :: p in Pages(sp.devices) && p in sp.leaves ==>
      sp.leaves[p].frame in w.content && IsDevice(w, sp.leaves[p].frame)
  }

  ghost predicate SpaceOk(w: World, sp: Space) {
    ValidSpace(sp) && OwnedOk(w.refs, sp) && DevicesOk(w, sp)
  }

  ghost predicate Inv(w: World) {
    CountsExact(w) && forall s {:trigger SpaceOk(w, w.spaces[s])} :: s in w.spaces ==> SpaceOk(w, w.spaces[s])
  }

  // ---- runs ------------------------------------------------------------------------

  /** One kernel operation or user store, with what the frame allocator answered. */
  datatype Step =
    | New(s: SpaceId)
    | MapOwned(s: SpaceId, p: Page, flags: Flags, f: Frame)
    | MapDevice(s: SpaceId, p: Page, flags: Flags, cache: nat, f: Frame)
    | Protect(s: SpaceId, p: Page, flags: Flags)
    | Unmap(s: SpaceId, p: Page)
    | Fork(s: SpaceId, child: SpaceId)
    | ForkFailed(s: SpaceId, visited: nat)
    | ForkCutOff(s: SpaceId, shared: nat)
    | Store(s: SpaceId, p: Page, offset: nat, b: Byte, copy: Option<Frame>)
    | Exit(s: SpaceId)
    | KernelAlloc(f: Frame, c: Content)
    | KernelGet(f: Frame)
    | KernelFree(f: Frame)

  ghost predicate Enabled(w: World, step: Step) {
    match step
    case New(s) => s !in w.spaces
    case MapOwned(s, p, _, f) => s in w.spaces && p !in w.spaces[s].leaves && CanAllocate(w, f)
    case MapDevice(s, p, _, _, f) => s in w.spaces && p !in w.spaces[s].leaves && f in w.content && IsDevice(w, f)
    case Protect(s, _, _) => s in w.spaces
    case Unmap(s, _) => s in w.spaces
    case Fork(s, child) => s in w.spaces && child !in w.spaces && Shareable(w, w.spaces[s].owned)
    case ForkFailed(s, n) => s in w.spaces && n <= |w.spaces[s].owned|
    case ForkCutOff(s, n) => s in w.spaces && CutAt(w, w.spaces[s], n)
    case Store(s, _, offset, _, copy) =>
        s in w.spaces && offset < PAGE_BYTES && (copy.Some? ==> CanAllocate(w, copy.value))
    case Exit(s) => s in w.spaces
    case KernelAlloc(f, _) => CanAllocate(w, f)
    case KernelGet(f) => w.held[f] > w.lost[f] && f in w.refs && w.refs[f] < REF_MAX
    case KernelFree(f) => w.held[f] > w.lost[f] && f in w.refs
  }

  /** A user store: the write fault, if any, is resolved and the store retried. */
  function StoreStep(w: World, s: SpaceId, p: Page, offset: nat, b: Byte, copy: Option<Frame>): World
    requires s in w.spaces && offset < PAGE_BYTES
  {
    if NoCopyLeft(w, s, p, copy) then w
    else
      var resolved := ResolveStep(w, s, p, if copy.Some? then copy.value else 0);
      WriteStep(resolved, s, p, offset, b)
  }

  ghost function Next(w: World, step: Step): World
    requires Enabled(w, step)
  {
    match step
    case New(s) => NewSpaceStep(w, s)
    case MapOwned(s, p, flags, f) => MapOwnedStep(w, s, p, flags, f)
    case MapDevice(s, p, flags, cache, f) => MapDeviceStep(w, s, p, flags, cache, f)
    case Protect(s, p, flags) => ProtectStep(w, s, p, flags)
    case Unmap(s, p) => UnmapStep(w, s, p)
    case Fork(s, child) => ForkStep(w, s, child)
    case ForkFailed(s, n) => ForkFailedStep(w, s, n)
    case ForkCutOff(s, n) => ForkLeakedStep(w, s, n)
    case Store(s, p, offset, b, copy) => StoreStep(w, s, p, offset, b, copy)
    case Exit(s) => ExitStep(w, s)
    case KernelAlloc(f, c) => Allocate(w, f, c).(held := w.held + multiset{f})
    case KernelGet(f) => w.(refs := w.refs[f := w.refs[f] + 1], held := w.held + multiset{f})
    case KernelFree(f) => DropFrames(w, {f}).(held := w.held - multiset{f})
  }

  // ---- lists -----------------------------------------------------------------------

  /** Replacing one mapping swaps its page in the set ... */
  lemma {:induction false} ReplacePage(ms: seq<Mapping>, i: nat, m: Mapping)
    requires DistinctPages(ms) && i < |ms| && (m.page == ms[i].page || m.page !in Pages(ms))
    ensures Pages(ms[i := m]) == Pages(ms) - {ms[i].page} + {m.page}
    ensures DistinctPages(ms[i := m])
  {
    var n := |ms| - 1;
    if i == n {
      assert ms[i := m][..n] == ms[..n];
    } else {
      assert ms[i := m][..n] == ms[..n][i := m];
      Listed(ms[..n], ms[..n][i]);
      ReplacePage(ms[..n], i, m);
    }
  }

  /** ... and its frame likewise. */
  lemma {:induction false} ReplaceFrame(ms: seq<Mapping>, i: nat, m: Mapping)
    requires DistinctFrames(ms) && i < |ms| && (m.frame == ms[i].frame || m.frame !in Frames(ms))
    ensures Frames(ms[i := m]) == Frames(ms) - {ms[i].frame} + {m.frame}
    ensures DistinctFrames(ms[i := m])
  {
    var n := |ms| - 1;
    if i == n {
      assert ms[i := m][..n] == ms[..n];
    } else {
      assert ms[i := m][..n] == ms[..n][i := m];
      Listed(ms[..n], ms[..n][i]);
      ReplaceFrame(ms[..n], i, m);
    }
  }

  /** `swap_remove` takes exactly one page off the list ... */
  lemma RemovePage(ms: seq<Mapping>, i: nat)
    requires DistinctPages(ms) && i < |ms|
    ensures Pages(SwapRemove(ms, i)) == Pages(ms) - {ms[i].page} && DistinctPages(SwapRemove(ms, i))
    ensures ms[i].page in Pages(ms)
  {
    var n := |ms| - 1;
    var rest := ms[..n];
    Listed(ms, ms[i]);
    if i == n {
      assert SwapRemove(ms, i) == rest;
    } else {
      assert SwapRemove(ms, i) == rest[i := ms[n]];
      Listed(rest, rest[i]);
      ReplacePage(rest, i, ms[n]);
    }
  }

  /** ... and exactly one frame ... */
  lemma RemoveFrame(ms: seq<Mapping>, i: nat)
    requires DistinctFrames(ms) && i < |ms|
    ensures Frames(SwapRemove(ms, i)) == Frames(ms) - {ms[i].frame} && DistinctFrames(SwapRemove(ms, i))
    ensures ms[i].frame in Frames(ms)
  {
    var n := |ms| - 1;
    var rest := ms[..n];
    Listed(ms, ms[i]);
    if i == n {
      assert SwapRemove(ms, i) == rest;
    } else {
      assert SwapRemove(ms, i) == rest[i := ms[n]];
      Listed(rest, rest[i]);
      ReplaceFrame(rest, i, ms[n]);
    }
  }

  /** ... and keeps the rest. */
  lemma RemainsElsewhere(ms: seq<Mapping>, i: nat, m: Mapping)
    requires DistinctPages(ms) && i < |ms| && m in SwapRemove(ms, i)
    ensures m in ms && m.page != ms[i].page
  {
    RemovePage(ms, i);
    Listed(SwapRemove(ms, i), m);
    var k :| 0 <= k < |ms| - 1 && SwapRemove(ms, i)[k] == m;
    assert m == if k == i then ms[|ms| - 1] else ms[k];
  }

  lemma AppendOne(ms: seq<Mapping>, m: Mapping)
    ensures Pages(ms + [m]) == Pages(ms) + {m.page} && Frames(ms + [m]) == Frames(ms) + {m.frame}
    ensures DistinctPages(ms) && m.page !in Pages(ms) ==> DistinctPages(ms + [m])
    ensures DistinctFrames(ms) && m.frame !in Frames(ms) ==> DistinctFrames(ms + [m])
  {
    assert (ms + [m])[..|ms|] == ms;
  }

  // ---- counts ----------------------------------------------------------------------

  lemma CardAfterSwap(a: set<SpaceId>, b: set<SpaceId>, s: SpaceId)
    requires a - {s} == b - {s}
    ensures |b| == |a| - (if s in a then 1 else 0) + (if s in b then 1 else 0)
  {
    assert |a - {s}| == |a| - if s in a then 1 else 0;
    assert |b - {s}| == |b| - if s in b then 1 else 0;
  }

  /** Replacing or adding one space changes the users of a frame by that space alone. */
  lemma UsersAfterUpdate(w: World, w': World, s: SpaceId, f: Frame)
    requires s in w'.spaces && w'.spaces == w.spaces[s := w'.spaces[s]]
    ensures |Users(w', f)| == |Users(w, f)| - (if s in w.spaces && f in Frames(w.spaces[s].owned) then 1 else 0)
                                            + (if f in Frames(w'.spaces[s].owned) then 1 else 0)
  {
    CardAfterSwap(Users(w, f), Users(w', f), s);
  }

  lemma UsersAfterExit(w: World, w': World, s: SpaceId, f: Frame)
    requires s in w.spaces && w'.spaces == w.spaces - {s}
    ensures |Users(w', f)| == |Users(w, f)| - if f in Frames(w.spaces[s].owned) then 1 else 0
  {
    assert Users(w', f) == Users(w, f) - {s};
  }

  lemma SameOwnedSameCounts(w: World, w': World, s: SpaceId)
    requires CountsExact(w) && s in w.spaces && s in w'.spaces
    requires w'.spaces == w.spaces[s := w'.spaces[s]] && Frames(w'.spaces[s].owned) == Frames(w.spaces[s].owned)
    requires w'.refs == w.refs && w'.state == w.state && w'.held == w.held && w'.content.Keys == w.content.Keys
    ensures CountsExact(w')
  {
    forall f | f in w'.refs
      ensures |Users(w', f)| == |Users(w, f)|
    {
      UsersAfterUpdate(w, w', s, f);
    }
  }

  /** A free frame has no user and no holder. */
  lemma FreeIsUnused(w: World, f: Frame)
    requires CountsExact(w) && CanAllocate(w, f)
    ensures w.refs[f] == 0 && Users(w, f) == {} && f !in w.held
    ensures forall s :: s in w.spaces ==> f !in Frames(w.spaces[s].owned)
  {
    assert |Users(w, f)| == 0;
    forall s | s in w.spaces
      ensures f !in Frames(w.spaces[s].owned)
    {
      assert s in Users(w, f) <==> f in Frames(w.spaces[s].owned);
    }
  }

  lemma OwnedIsReferenced(w: World, s: SpaceId)
    requires Inv(w) && s in w.spaces
    ensures Referenced(w, w.spaces[s].owned)
  {
    forall f | f in Frames(w.spaces[s].owned)
      ensures f in w.refs && w.refs[f] > 0
    {
      assert SpaceOk(w, w.spaces[s]);
      assert s in Users(w, f);
    }
  }

  lemma LeafFrame(sp: Space, p: Page)
    requires ValidSpace(sp) && p in Pages(sp.owned)
    ensures p in sp.leaves && sp.leaves[p].frame in Frames(sp.owned)
  {
    var i := FindPage(sp.owned, p);
    assert sp.owned[i] in sp.owned;
    Listed(sp.owned, sp.owned[i]);
  }

  lemma Singleton(a: set<SpaceId>, s: SpaceId)
    requires |a| == 1 && s in a
    ensures a == {s}
  {
    assert |a - {s}| == 0;
    assert a == {s} + (a - {s});
  }

  /** With one reference, an owned frame has one user and no holder. */
  lemma SoleUser(w: World, s: SpaceId, f: Frame)
    requires CountsExact(w) && s in w.spaces && f in Frames(w.spaces[s].owned) && f in w.refs && w.refs[f] == 1
    ensures f !in w.held && Users(w, f) == {s}
    ensures forall t :: t in w.spaces && t != s ==> f !in Frames(w.spaces[t].owned)
  {
    assert s in Users(w, f);
    assert |Users(w, f)| > 0;
    Singleton(Users(w, f), s);
    forall t | t in w.spaces && t != s
      ensures f !in Frames(w.spaces[t].owned)
    {
      assert t in Users(w, f) <==> f in Frames(w.spaces[t].owned);
    }
  }

  /** Everything about a space except its own lists and leaves that `SpaceOk` looks at. */
  ghost predicate Undisturbed(w: World, w': World, sp: Space) {
    && w'.refs.Keys == w.refs.Keys && w.content.Keys <= w'.content.Keys
    && (forall f :: IsDevice(w, f) ==> IsDevice(w', f))
    && forall f :: f in Frames(sp.owned) && f in w.refs && w.refs[f] == 1 ==> w'.refs[f] == 1
  }

  lemma UndisturbedIsOk(w: World, w': World, sp: Space)
    requires SpaceOk(w, sp) && Undisturbed(w, w', sp)
    ensures SpaceOk(w', sp)
  {
    forall p | p in Pages(sp.owned) && p in sp.leaves && sp.leaves[p].writable
      ensures sp.leaves[p].frame in w'.refs && w'.refs[sp.leaves[p].frame] == 1
    {
      LeafFrame(sp, p);
    }
  }

  lemma OthersOk(w: World, w': World, s: SpaceId)
    requires Inv(w)
    requires forall t :: t in w'.spaces && t != s ==>
               t in w.spaces && w'.spaces[t] == w.spaces[t] && Undisturbed(w, w', w.spaces[t])
    ensures forall t {:trigger SpaceOk(w', w'.spaces[t])} :: t in w'.spaces && t != s ==> SpaceOk(w', w'.spaces[t])
  {
    forall t | t in w'.spaces && t != s
      ensures SpaceOk(w', w'.spaces[t])
    {
      UndisturbedIsOk(w, w', w.spaces[t]);
    }
  }

  // ---- every step keeps the invariant ------------------------------------------------

  lemma NewKeeps(w: World, s: SpaceId)
    requires Inv(w) && s !in w.spaces
    ensures Inv(NewSpaceStep(w, s))
  {
    var w' := NewSpaceStep(w, s);
    assert CountsExact(w') by {
      forall f | f in w'.refs
        ensures |Users(w', f)| == |Users(w, f)|
      {
        UsersAfterUpdate(w, w', s, f);
      }
    }
    OthersOk(w, w', s);
    assert SpaceOk(w', EMPTY_SPACE);
  }

  /** A step that edits one space's leaves and device list only. */
  lemma LeavesOnly(w: World, s: SpaceId, sp': Space)
    requires Inv(w) && s in w.spaces && sp'.owned == w.spaces[s].owned
    requires SpaceOk(w, sp')
    ensures Inv(w.(spaces := w.spaces[s := sp']))
  {
    var w' := w.(spaces := w.spaces[s := sp']);
    SameOwnedSameCounts(w, w', s);
    OthersOk(w, w', s);
    assert SpaceOk(w', sp');
  }

  /** Rewriting leaves in place, frames kept. */
  lemma RewriteValid(sp: Space, leaves: map<Page, Leaf>)
    requires ValidSpace(sp) && leaves.Keys == sp.leaves.Keys
    requires forall p :: p in leaves ==> leaves[p].frame == sp.leaves[p].frame
    requires forall p :: p in leaves ==> !(leaves[p].writable && leaves[p].cow)
    requires forall p :: p in leaves && p in Pages(sp.devices) ==> !leaves[p].cow
    ensures ValidSpace(sp.(leaves := leaves))
  {
  }

  lemma MapDeviceValid(sp: Space, p: Page, leaf: Leaf)
    requires ValidSpace(sp) && p !in sp.leaves && !leaf.cow
    ensures ValidSpace(sp.(leaves := sp.leaves[p := leaf], devices := sp.devices + [Mapping(p, leaf.frame)]))
    ensures Pages(sp.devices + [Mapping(p, leaf.frame)]) == Pages(sp.devices) + {p}
  {
    AppendOne(sp.devices, Mapping(p, leaf.frame));
  }

  lemma MapDeviceKeeps(w: World, s: SpaceId, p: Page, flags: Flags, cache: nat, f: Frame)
    requires Inv(w) && s in w.spaces && p !in w.spaces[s].leaves && f in w.content && IsDevice(w, f)
    ensures Inv(MapDeviceStep(w, s, p, flags, cache, f))
  {
    var sp := w.spaces[s];
    var leaf := Leaf(f, flags.user, flags.writable, false, flags.execute, cache);
    assert SpaceOk(w, sp);
    MapDeviceValid(sp, p, leaf);
    LeavesOnly(w, s, sp.(leaves := sp.leaves[p := leaf], devices := sp.devices + [Mapping(p, f)]));
  }

  lemma ProtectKeeps(w: World, s: SpaceId, p: Page, flags: Flags)
    requires Inv(w) && s in w.spaces
    ensures Inv(ProtectStep(w, s, p, flags))
  {
    var sp := w.spaces[s];
    if p in sp.leaves {
      OwnedIsReferenced(w, s);
      ProtectKeepsSpace(w, sp, p, flags);
      LeavesOnly(w, s, sp.(leaves := sp.leaves[p := Protected(w, sp.leaves[p], flags)]));
    }
  }

  lemma ProtectKeepsSpace(w: World, sp: Space, p: Page, flags: Flags)
    requires CountsExact(w) && SpaceOk(w, sp) && Referenced(w, sp.owned) && p in sp.leaves
    ensures SpaceOk(w, sp.(leaves := sp.leaves[p := Protected(w, sp.leaves[p], flags)]))
  {
    var leaf := Protected(w, sp.leaves[p], flags);
    assert !(leaf.writable && leaf.cow) && leaf.frame == sp.leaves[p].frame;
    if p in Pages(sp.owned) {
      assert leaf.writable ==> leaf.frame in w.refs && w.refs[leaf.frame] == 1 by {
        LeafFrame(sp, p);
      }
      RewriteOk(w, sp, p, leaf);
    } else {
      assert !leaf.cow by {
        DeviceIsUncounted(w, sp, p);
      }
      RewriteOk(w, sp, p, leaf);
    }
  }

  lemma RewriteOk(w: World, sp: Space, p: Page, leaf: Leaf)
    requires SpaceOk(w, sp) && p in sp.leaves && leaf.frame == sp.leaves[p].frame
    requires !(leaf.writable && leaf.cow) && (p in Pages(sp.devices) ==> !leaf.cow)
    requires p in Pages(sp.owned) && leaf.writable ==> leaf.frame in w.refs && w.refs[leaf.frame] == 1
    ensures SpaceOk(w, sp.(leaves := sp.leaves[p := leaf]))
  {
    RewriteOneValid(sp, p, leaf);
  }

  lemma DeviceIsUncounted(w: World, sp: Space, p: Page)
    requires CountsExact(w) && SpaceOk(w, sp) && p in sp.leaves && p !in Pages(sp.owned)
    ensures p in Pages(sp.devices) && IsDevice(w, sp.leaves[p].frame) && Refcount(w, sp.leaves[p].frame) <= 1
  {
  }

  lemma RewriteOneValid(sp: Space, p: Page, leaf: Leaf)
    requires ValidSpace(sp) && p in sp.leaves && leaf.frame == sp.leaves[p].frame
    requires !(leaf.writable && leaf.cow) && (p in Pages(sp.devices) ==> !leaf.cow)
    ensures ValidSpace(sp.(leaves := sp.leaves[p := leaf]))
  {
  }

  /** Turning writable leaves copy-on-write never breaks a space. */
  lemma ShareKeepsSpace(w: World, refs: map<Frame, nat>, sp: Space, pages: set<Page>)
    requires SpaceOk(w, sp) && pages <= Pages(sp.owned)
    ensures ValidSpace(sp.(leaves := ShareLeaves(sp.leaves, pages)))
    ensures SpaceOk(w, sp.(leaves := ShareLeaves(sp.leaves, pages)))
  {
    RewriteValid(sp, ShareLeaves(sp.leaves, pages));
  }

  lemma ForkFailedKeeps(w: World, s: SpaceId, n: nat)
    requires Inv(w) && s in w.spaces && n <= |w.spaces[s].owned|
    ensures Inv(ForkFailedStep(w, s, n))
  {
    var sp := w.spaces[s];
    PrefixPages(sp.owned, n);
    ShareKeepsSpace(w, w.refs, sp, Pages(sp.owned[..n]));
    LeavesOnly(w, s, sp.(leaves := ShareLeaves(sp.leaves, Pages(sp.owned[..n]))));
  }

  lemma {:induction false} PrefixPages(ms: seq<Mapping>, i: nat)
    requires i <= |ms|
    ensures Pages(ms[..i]) <= Pages(ms)
    decreases |ms| - i
  {
    if i == |ms| {
      assert ms[..i] == ms;
    } else {
      PrefixPages(ms, i + 1);
      PrefixExtends(ms, i);
    }
  }

  // ---- mapping a fresh frame

  lemma MapOwnedValid(sp: Space, p: Page, leaf: Leaf)
    requires ValidSpace(sp) && p !in sp.leaves && !leaf.cow && leaf.frame !in Frames(sp.owned)
    ensures ValidSpace(sp.(leaves := sp.leaves[p := leaf], owned := sp.owned + [Mapping(p, leaf.frame)]))
    ensures Pages(sp.owned + [Mapping(p, leaf.frame)]) == Pages(sp.owned) + {p}
    ensures Frames(sp.owned + [Mapping(p, leaf.frame)]) == Frames(sp.owned) + {leaf.frame}
  {
    AppendOne(sp.owned, Mapping(p, leaf.frame));
  }

  lemma MapOwnedKeeps(w: World, s: SpaceId, p: Page, flags: Flags, f: Frame)
    requires Inv(w) && s in w.spaces && p !in w.spaces[s].leaves && CanAllocate(w, f)
    ensures Inv(MapOwnedStep(w, s, p, flags, f))
  {
    var w' := MapOwnedStep(w, s, p, flags, f);
    FreeIsUnused(w, f);
    AppendOne(w.spaces[s].owned, Mapping(p, f));
    MapOwnedCounts(w, s, p, flags, f);
    AllocateOthers(w, w', s, f);
    AllocateUndisturbed(w, w', f, w.spaces[s]);
    MapOwnedSpace(w, w', s, p, Leaf(f, flags.user, flags.writable, false, flags.execute, 0));
  }

  /** Handing out a free frame disturbs no space that is not given it. */
  lemma AllocateOthers(w: World, w': World, s: SpaceId, f: Frame)
    requires Inv(w) && CanAllocate(w, f)
    requires w'.refs == w.refs[f := 1] && w'.state == w.state[f := Allocated] && w'.content.Keys == w.content.Keys
    requires forall t :: t in w'.spaces && t != s ==> t in w.spaces && w'.spaces[t] == w.spaces[t]
    ensures forall t {:trigger SpaceOk(w', w'.spaces[t])} :: t in w'.spaces && t != s ==> SpaceOk(w', w'.spaces[t])
  {
    FreeIsUnused(w, f);
    forall t | t in w'.spaces && t != s
      ensures SpaceOk(w', w'.spaces[t])
    {
      AllocateUndisturbed(w, w', f, w.spaces[t]);
      UndisturbedIsOk(w, w', w.spaces[t]);
    }
  }

  lemma AllocateUndisturbed(w: World, w': World, f: Frame, sp: Space)
    requires f in w.refs && w.refs[f] == 0 && CanAllocate(w, f)
    requires w'.refs == w.refs[f := 1] && w'.state == w.state[f := Allocated] && w'.content.Keys == w.content.Keys
    ensures Undisturbed(w, w', sp)
  {
  }

  lemma MapOwnedSpace(w: World, w': World, s: SpaceId, p: Page, leaf: Leaf)
    requires s in w.spaces && SpaceOk(w, w.spaces[s]) && p !in w.spaces[s].leaves
    requires leaf.frame !in Frames(w.spaces[s].owned) && !leaf.cow
    requires leaf.frame in w.refs && w'.refs == w.refs[leaf.frame := 1]
    requires w.content.Keys <= w'.content.Keys && forall f :: IsDevice(w, f) ==> IsDevice(w', f)
    ensures SpaceOk(w', w.spaces[s].(leaves := w.spaces[s].leaves[p := leaf],
                                     owned := w.spaces[s].owned + [Mapping(p, leaf.frame)]))
  {
    var sp := w.spaces[s];
    MapOwnedValid(sp, p, leaf);
    forall q | q in Pages(sp.owned)
      ensures sp.leaves[q].frame in Frames(sp.owned)
    {
      LeafFrame(sp, q);
    }
  }

  lemma MapOwnedCounts(w: World, s: SpaceId, p: Page, flags: Flags, f: Frame)
    requires CountsExact(w) && s in w.spaces && CanAllocate(w, f)
    requires Frames(w.spaces[s].owned + [Mapping(p, f)]) == Frames(w.spaces[s].owned) + {f}
    ensures CountsExact(MapOwnedStep(w, s, p, flags, f))
  {
    var w' := MapOwnedStep(w, s, p, flags, f);
    FreeIsUnused(w, f);
    forall g | g in w'.refs
      ensures w'.refs[g] == |Users(w', g)| + w'.held[g]
    {
      UsersAfterUpdate(w, w', s, g);
    }
  }

  // ---- dropping frames

  /** Dropping one reference to each of `fs` is exact when each of them lost one user. */
  lemma DropCounts(w: World, w': World, fs: set<Frame>)
    requires CountsExact(w) && fs <= w.refs.Keys
    requires w'.refs == DropRefs(w.refs, fs) && w'.state == DropStates(w.state, w.refs, fs)
    requires w'.content == w.content && w'.held == w.held
    requires forall f :: f in fs ==> w.refs[f] > 0
    requires forall f :: f in w.refs ==> |Users(w', f)| == |Users(w, f)| - if f in fs then 1 else 0
    ensures CountsExact(w')
  {
  }

  /** The other spaces do not notice: their sole references are not the ones dropped. */
  lemma DropOthers(w: World, w': World, s: SpaceId, fs: set<Frame>)
    requires Inv(w) && s in w.spaces && fs <= Frames(w.spaces[s].owned)
    requires w'.refs == DropRefs(w.refs, fs) && w'.state == DropStates(w.state, w.refs, fs) && w'.content == w.content
    requires forall t :: t in w'.spaces && t != s ==> t in w.spaces && w'.spaces[t] == w.spaces[t]
    ensures forall t {:trigger SpaceOk(w', w'.spaces[t])} :: t in w'.spaces && t != s ==> SpaceOk(w', w'.spaces[t])
  {
    forall t | t in w'.spaces && t != s
      ensures Undisturbed(w, w', w.spaces[t])
    {
      forall f | f in Frames(w.spaces[t].owned) && f in w.refs && w.refs[f] == 1
        ensures f !in fs
      {
        SoleUser(w, t, f);
      }
      DropKeepsDevices(w, w', fs);
    }
    OthersOk(w, w', s);
  }

  lemma DropKeepsDevices(w: World, w': World, fs: set<Frame>)
    requires CountsExact(w) && w'.state == DropStates(w.state, w.refs, fs)
    ensures forall f :: IsDevice(w, f) ==> IsDevice(w', f)
  {
  }

  lemma ExitKeeps(w: World, s: SpaceId)
    requires Inv(w) && s in w.spaces
    ensures Inv(ExitStep(w, s))
  {
    var w' := ExitStep(w, s);
    var fs := Frames(w.spaces[s].owned);
    OwnedIsReferenced(w, s);
    forall f | f in w.refs
      ensures |Users(w', f)| == |Users(w, f)| - if f in fs then 1 else 0
    {
      UsersAfterExit(w, w', s, f);
    }
    DropCounts(w, w', fs);
    DropOthers(w, w', s, fs);
  }

  // ---- unmapping

  lemma UnmapOwnedValid(sp: Space, i: nat)
    requires ValidSpace(sp) && i < |sp.owned|
    ensures ValidSpace(Space(sp.leaves - {sp.owned[i].page}, SwapRemove(sp.owned, i), sp.devices))
  {
    RemovePage(sp.owned, i);
    RemoveFrame(sp.owned, i);
    RemovedBacks(sp.leaves, sp.owned, i);
    AbsentBacks(sp.leaves, sp.devices, sp.owned[i].page);
  }

  lemma UnmapDeviceValid(sp: Space, i: nat)
    requires ValidSpace(sp) && i < |sp.devices|
    ensures ValidSpace(Space(sp.leaves - {sp.devices[i].page}, sp.owned, SwapRemove(sp.devices, i)))
  {
    RemovePage(sp.devices, i);
    RemovedBacks(sp.leaves, sp.devices, i);
    AbsentBacks(sp.leaves, sp.owned, sp.devices[i].page);
  }

  lemma RemovedBacks(leaves: map<Page, Leaf>, ms: seq<Mapping>, i: nat)
    requires Backs(leaves, ms) && DistinctPages(ms) && i < |ms|
    ensures Backs(leaves - {ms[i].page}, SwapRemove(ms, i))
  {
    forall m | m in SwapRemove(ms, i)
      ensures m in ms && m.page != ms[i].page
    {
      RemainsElsewhere(ms, i, m);
    }
  }

  lemma AbsentBacks(leaves: map<Page, Leaf>, ms: seq<Mapping>, p: Page)
    requires Backs(leaves, ms) && p !in Pages(ms)
    ensures Backs(leaves - {p}, ms)
  {
    forall m | m in ms
      ensures m.page != p
    {
      Listed(ms, m);
    }
  }

  lemma UnmapDeviceKeeps(w: World, s: SpaceId, i: nat)
    requires Inv(w) && s in w.spaces && i < |w.spaces[s].devices|
    ensures var sp := w.spaces[s];
      Inv(w.(spaces := w.spaces[s := Space(sp.leaves - {sp.devices[i].page}, sp.owned, SwapRemove(sp.devices, i))]))
  {
    var sp := w.spaces[s];
    assert SpaceOk(w, sp);
    UnmapDeviceValid(sp, i);
    RemovePage(sp.devices, i);
    LeavesOnly(w, s, Space(sp.leaves - {sp.devices[i].page}, sp.owned, SwapRemove(sp.devices, i)));
  }

  ghost function WithoutOwned(sp: Space, i: nat): Space
    requires i < |sp.owned|
  {
    Space(sp.leaves - {sp.owned[i].page}, SwapRemove(sp.owned, i), sp.devices)
  }

  lemma UnmapOwnedKeeps(w: World, s: SpaceId, i: nat)
    requires Inv(w) && s in w.spaces && i < |w.spaces[s].owned|
    ensures Inv(DropFrames(w.(spaces := w.spaces[s := WithoutOwned(w.spaces[s], i)]), {w.spaces[s].owned[i].frame}))
  {
    var sp := w.spaces[s];
    var f := sp.owned[i].frame;
    var w' := DropFrames(w.(spaces := w.spaces[s := WithoutOwned(sp, i)]), {f});
    assert SpaceOk(w, sp);
    OwnedDropped(w, w', s, i, f);
    assert SpaceOk(w', w'.spaces[s]) by {
      UnmapOwnedSpace(w, w', sp, i);
    }
  }

  /** The counts stay exact and the other spaces as they were. */
  lemma OwnedDropped(w: World, w': World, s: SpaceId, i: nat, f: Frame)
    requires Inv(w) && s in w.spaces && i < |w.spaces[s].owned| && Distinct(w.spaces[s].owned)
    requires f == w.spaces[s].owned[i].frame && s in w'.spaces && w'.spaces == w.spaces[s := w'.spaces[s]]
    requires w'.spaces[s].owned == SwapRemove(w.spaces[s].owned, i)
    requires w'.refs == DropRefs(w.refs, {f}) && w'.state == DropStates(w.state, w.refs, {f})
    requires w'.content == w.content && w'.held == w.held
    ensures CountsExact(w')
    ensures forall t {:trigger SpaceOk(w', w'.spaces[t])} :: t in w'.spaces && t != s ==> SpaceOk(w', w'.spaces[t])
  {
    assert CountsExact(w') by {
      OwnedIsReferenced(w, s);
      UnmapOwnedCounts(w, w', s, i);
    }
    Listed(w.spaces[s].owned, w.spaces[s].owned[i]);
    DropOthers(w, w', s, {f});
  }

  lemma UnmapOwnedCounts(w: World, w': World, s: SpaceId, i: nat)
    requires CountsExact(w) && s in w.spaces && i < |w.spaces[s].owned| && Distinct(w.spaces[s].owned)
    requires Referenced(w, w.spaces[s].owned)
    requires s in w'.spaces && w'.spaces == w.spaces[s := w'.spaces[s]]
    requires w'.spaces[s].owned == SwapRemove(w.spaces[s].owned, i)
    requires var fs := {w.spaces[s].owned[i].frame};
      w'.refs == DropRefs(w.refs, fs) && w'.state == DropStates(w.state, w.refs, fs)
    requires w'.content == w.content && w'.held == w.held
    ensures CountsExact(w')
  {
    var f := w.spaces[s].owned[i].frame;
    RemoveFrame(w.spaces[s].owned, i);
    forall g | g in w.refs
      ensures |Users(w', g)| == |Users(w, g)| - if g in {f} then 1 else 0
    {
      UsersAfterUpdate(w, w', s, g);
    }
    DropCounts(w, w', {f});
  }

  lemma UnmapOwnedSpace(w: World, w': World, sp: Space, i: nat)
    requires CountsExact(w) && SpaceOk(w, sp) && i < |sp.owned|
    requires w'.refs == DropRefs(w.refs, {sp.owned[i].frame}) && w'.content == w.content
    requires w'.state == DropStates(w.state, w.refs, {sp.owned[i].frame})
    ensures SpaceOk(w', WithoutOwned(sp, i))
  {
    var sp' := WithoutOwned(sp, i);
    UnmapOwnedValid(sp, i);
    RemovePage(sp.owned, i);
    RemoveFrame(sp.owned, i);
    DropKeepsDevices(w, w', {sp.owned[i].frame});
    forall p | p in Pages(sp'.owned)
      ensures sp'.leaves[p].frame in Frames(sp'.owned)
    {
      LeafFrame(sp', p);
    }
  }

  lemma UnmapKeeps(w: World, s: SpaceId, p: Page)
    requires Inv(w) && s in w.spaces
    ensures Inv(UnmapStep(w, s, p))
  {
    var sp := w.spaces[s];
    if p in sp.leaves {
      assert SpaceOk(w, sp);
      var d := IndexOf(sp.devices, p);
      if d < |sp.devices| {
        UnmapDeviceKeeps(w, s, d);
      } else {
        NotADevice(sp, p);
        var i := FindPage(sp.owned, p);
        var k := IndexOf(sp.owned, p);
        assert sp.owned[k] in sp.owned;
        UnmapOwnedKeeps(w, s, k);
      }
    }
  }

  lemma NotADevice(sp: Space, p: Page)
    requires ValidSpace(sp) && p in sp.leaves && IndexOf(sp.devices, p) == |sp.devices|
    ensures p in Pages(sp.owned)
  {
    if p in Pages(sp.devices) {
      var i := FindPage(sp.devices, p);
    }
  }

  // ---- fork

  lemma UsersAfterFork(w: World, parent: SpaceId, child: SpaceId, f: Frame)
    requires parent in w.spaces && child !in w.spaces
    ensures |Users(ForkStep(w, parent, child), f)| ==
            |Users(w, f)| + if f in Frames(w.spaces[parent].owned) then 1 else 0
  {
    var sp := w.spaces[parent];
    var w1 := w.(spaces := w.spaces[parent := sp.(leaves := ShareLeaves(sp.leaves, Pages(sp.owned)))]);
    UsersAfterUpdate(w, w1, parent, f);
    UsersAfterUpdate(w1, ForkStep(w, parent, child), child, f);
  }

  lemma ForkCounts(w: World, parent: SpaceId, child: SpaceId)
    requires CountsExact(w) && parent in w.spaces && child !in w.spaces && Referenced(w, w.spaces[parent].owned)
    ensures CountsExact(ForkStep(w, parent, child))
  {
    var w' := ForkStep(w, parent, child);
    forall f | f in w'.refs
      ensures w'.refs[f] == |Users(w', f)| + w'.held[f]
    {
      UsersAfterFork(w, parent, child, f);
    }
  }

  /** After the fork neither side has a hardware-writable owned page. */
  lemma SharedSpaceOk(w: World, refs: map<Frame, nat>, sp: Space)
    requires SpaceOk(w, sp) && refs.Keys == w.refs.Keys
    ensures SpaceOk(w.(refs := refs), sp.(leaves := ShareLeaves(sp.leaves, Pages(sp.owned))))
  {
    ShareKeepsSpace(w, w.refs, sp, Pages(sp.owned));
  }

  lemma ForkKeeps(w: World, parent: SpaceId, child: SpaceId)
    requires Inv(w) && parent in w.spaces && child !in w.spaces
    ensures Inv(ForkStep(w, parent, child))
  {
    var w' := ForkStep(w, parent, child);
    var sp := w.spaces[parent];
    assert CountsExact(w') by {
      OwnedIsReferenced(w, parent);
      ForkCounts(w, parent, child);
    }
    assert SpaceOk(w', w'.spaces[parent]) && SpaceOk(w', w'.spaces[child]) by {
      assert SpaceOk(w, sp);
      SharedSpaceOk(w, w'.refs, sp);
      UndisturbedIsOk(w.(refs := w'.refs), w', w'.spaces[parent]);
    }
    forall t | t in w'.spaces && t != parent && t != child
      ensures SpaceOk(w', w'.spaces[t])
    {
      ForkUndisturbed(w, parent, child, t);
      UndisturbedIsOk(w, w', w.spaces[t]);
    }
  }

  lemma ForkUndisturbed(w: World, parent: SpaceId, child: SpaceId, t: SpaceId)
    requires CountsExact(w) && parent in w.spaces && t in w.spaces && t != parent
    ensures Undisturbed(w, ForkStep(w, parent, child), w.spaces[t])
  {
    forall f | f in Frames(w.spaces[t].owned) && f in w.refs && w.refs[f] == 1
      ensures f !in Frames(w.spaces[parent].owned)
    {
      SoleUser(w, t, f);
    }
  }

  /** A fork cut off: the references taken so far are nobody's. */
  lemma ForkCutOffKeeps(w: World, s: SpaceId, n: nat)
    requires Inv(w) && s in w.spaces && n <= |w.spaces[s].owned|
    ensures Inv(ForkLeakedStep(w, s, n))
  {
    var mid := ForkFailedStep(w, s, Visiting(w.spaces[s].owned, n));
    ForkFailedKeeps(w, s, Visiting(w.spaces[s].owned, n));
    PrefixFrames(w.spaces[s].owned, n);
    assert SharedRest(mid.spaces[s], n) by {
      assert SpaceOk(w, w.spaces[s]);
      SharedPagesAreCow(w.spaces[s], n, mid.spaces[s]);
    }
    LeftBehind(mid, s, n, ForkLeakedStep(w, s, n));
  }

  /** No hardware-writable page of the space uses one of the first `n` frames. */
  ghost predicate SharedRest(sp: Space, n: nat)
    requires n <= |sp.owned|
  {
    forall p :: p in Pages(sp.owned) && p in sp.leaves && sp.leaves[p].writable ==>
      sp.leaves[p].frame !in Frames(sp.owned[..n])
  }

  /** The pages shared so far are no longer hardware-writable. */
  lemma SharedPagesAreCow(sp: Space, n: nat, sp': Space)
    requires ValidSpace(sp) && n <= |sp.owned|
    requires sp' == sp.(leaves := ShareLeaves(sp.leaves, Pages(sp.owned[..Visiting(sp.owned, n)])))
    ensures SharedRest(sp', n)
  {
    forall p | p in Pages(sp.owned) && p in sp'.leaves && sp'.leaves[p].writable
      ensures sp'.leaves[p].frame !in Frames(sp.owned[..n])
    {
      var i := FindPage(sp.owned, p);
      assert sp.owned[i] in sp.owned;
      if i < n {
        Listed(sp.owned[..Visiting(sp.owned, n)], sp.owned[..Visiting(sp.owned, n)][i]);
      } else if sp.leaves[p].frame in Frames(sp.owned[..n]) {
        var j := FindFrame(sp.owned[..n], sp.leaves[p].frame);
        FramesDiffer(sp.owned, j, i);
      }
    }
  }

  lemma {:induction false} FindFrame(ms: seq<Mapping>, f: Frame) returns (i: nat)
    requires f in Frames(ms)
    ensures i < |ms| && ms[i].frame == f
  {
    if ms[|ms| - 1].frame == f {
      i := |ms| - 1;
    } else {
      i := FindFrame(ms[..|ms| - 1], f);
    }
  }

  /** One more reference, held by nobody, to frames no writable page of the space uses. */
  lemma LeftBehind(w: World, s: SpaceId, n: nat, w': World)
    requires Inv(w) && s in w.spaces && n <= |w.spaces[s].owned| && SharedRest(w.spaces[s], n)
    requires var fs := Frames(w.spaces[s].owned[..n]);
      && fs <= Frames(w.spaces[s].owned)
      && w' == w.(refs := AddRefs(w.refs, fs), held := w.held + multiset(fs), lost := w'.lost)
    ensures Inv(w')
  {
    var fs := Frames(w.spaces[s].owned[..n]);
    assert SpaceOk(w, w.spaces[s]);
    OwnedIsReferenced(w, s);
    LeftCounts(w, fs, w');
    forall t | t in w'.spaces && t != s
      ensures SpaceOk(w', w'.spaces[t])
    {
      assert SpaceOk(w, w.spaces[t]);
      LeftUndisturbed(w, s, fs, w', t);
      UndisturbedIsOk(w, w', w.spaces[t]);
    }
    assert SpaceOk(w', w'.spaces[s]);
  }

  lemma LeftCounts(w: World, fs: set<Frame>, w': World)
    requires CountsExact(w) && fs <= w.refs.Keys && forall f :: f in fs ==> w.refs[f] > 0
    requires w' == w.(refs := AddRefs(w.refs, fs), held := w.held + multiset(fs), lost := w'.lost)
    ensures CountsExact(w')
  {
    forall f | f in w'.refs
      ensures w'.refs[f] == |Users(w', f)| + w'.held[f]
    {
      assert Users(w', f) == Users(w, f);
    }
  }

  lemma LeftUndisturbed(w: World, s: SpaceId, fs: set<Frame>, w': World, t: SpaceId)
    requires CountsExact(w) && s in w.spaces && t in w.spaces && t != s && fs <= Frames(w.spaces[s].owned)
    requires w' == w.(refs := AddRefs(w.refs, fs), held := w'.held, lost := w'.lost)
    ensures Undisturbed(w, w', w.spaces[t])
  {
    forall f | f in Frames(w.spaces[t].owned) && f in w.refs && w.refs[f] == 1
      ensures f !in fs
    {
      SoleUser(w, t, f);
    }
  }

  // ---- write faults and stores

  /** The space after its copy-on-write page `p` moved to the frame `copy`. */
  ghost function Copied(sp: Space, p: Page, copy: Frame): Space
    requires p in sp.leaves && IndexOf(sp.owned, p) < |sp.owned|
  {
    Space(sp.leaves[p := sp.leaves[p].(cow := false, writable := true, frame := copy)],
          sp.owned[IndexOf(sp.owned, p) := Mapping(p, copy)], sp.devices)
  }

  lemma CopiedValid(sp: Space, p: Page, copy: Frame)
    requires ValidSpace(sp) && p in sp.leaves && sp.leaves[p].cow && copy !in Frames(sp.owned)
    ensures IndexOf(sp.owned, p) < |sp.owned|
    ensures var sp' := Copied(sp, p, copy);
      && ValidSpace(sp') && Pages(sp'.owned) == Pages(sp.owned)
      && Frames(sp'.owned) == Frames(sp.owned) - {sp.leaves[p].frame} + {copy}
  {
    CowPagesAreOwned(sp, p);
    var i := IndexOf(sp.owned, p);
    var m := Mapping(p, copy);
    ReplacePage(sp.owned, i, m);
    ReplaceFrame(sp.owned, i, m);
    MovedBacks(sp.leaves, sp.owned, i, Copied(sp, p, copy).leaves[p]);
    ElsewhereBacks(sp.leaves, sp.devices, p, Copied(sp, p, copy).leaves[p]);
  }

  lemma MovedBacks(leaves: map<Page, Leaf>, ms: seq<Mapping>, i: nat, leaf: Leaf)
    requires DistinctPages(ms) && Backs(leaves, ms) && i < |ms|
    ensures Backs(leaves[ms[i].page := leaf], ms[i := Mapping(ms[i].page, leaf.frame)])
  {
    var m := Mapping(ms[i].page, leaf.frame);
    forall m' | m' in ms[i := m]
      ensures m' == m || (m' in ms && m'.page != m.page)
    {
      OtherPages(ms, i, m, m');
    }
  }

  lemma ElsewhereBacks(leaves: map<Page, Leaf>, ms: seq<Mapping>, p: Page, leaf: Leaf)
    requires Backs(leaves, ms) && p !in Pages(ms)
    ensures Backs(leaves[p := leaf], ms)
  {
    forall m | m in ms
      ensures m.page != p
    {
      Listed(ms, m);
    }
  }

  lemma OtherPages(ms: seq<Mapping>, i: nat, m: Mapping, m': Mapping)
    requires DistinctPages(ms) && i < |ms| && m.page == ms[i].page && m' in ms[i := m]
    ensures m' == m || (m' in ms && m'.page != m.page)
  {
    if m' != m {
      var k :| 0 <= k < |ms| && ms[i := m][k] == m';
      assert m' == SwapRemove(ms, i)[if k == |ms| - 1 then i else k];
      RemainsElsewhere(ms, i, m');
    }
  }

  lemma ResolveCopyKeeps(w: World, s: SpaceId, p: Page, copy: Frame)
    requires Inv(w) && s in w.spaces && p in w.spaces[s].leaves && w.spaces[s].leaves[p].cow
    requires Refcount(w, w.spaces[s].leaves[p].frame) > 1 && CanAllocate(w, copy)
    ensures Inv(ResolveStep(w, s, p, copy))
  {
    var sp := w.spaces[s];
    FreeIsUnused(w, copy);
    assert SpaceOk(w, sp);
    CowPagesAreOwned(sp, p);
    var f := sp.leaves[p].frame;
    ResolveRefs(w, s, p, f, copy);
    CopyKeeps(w, ResolveStep(w, s, p, copy), s, p, f, copy);
  }

  lemma CopyKeeps(w: World, w': World, s: SpaceId, p: Page, f: Frame, copy: Frame)
    requires Inv(w) && s in w.spaces && p in w.spaces[s].leaves && w.spaces[s].leaves[p].cow
    requires CanAllocate(w, copy) && copy in w.refs && w.refs[copy] == 0
    requires IndexOf(w.spaces[s].owned, p) < |w.spaces[s].owned|
    requires forall t :: t in w.spaces ==> copy !in Frames(w.spaces[t].owned)
    requires f == w.spaces[s].leaves[p].frame && f in Frames(w.spaces[s].owned)
    requires f in w.refs && w.refs[f] > 1 && w'.refs == w.refs[copy := 1][f := w.refs[f] - 1]
    requires w'.spaces == w.spaces[s := Copied(w.spaces[s], p, copy)]
    requires w'.state == w.state[copy := Allocated] && w'.held == w.held && w'.content.Keys == w.content.Keys
    ensures Inv(w')
  {
    var sp := w.spaces[s];
    ResolveDevices(w, w', copy);
    assert CountsExact(w') && SpaceOk(w', w'.spaces[s]) by {
      assert SpaceOk(w, sp);
      CopiedValid(sp, p, copy);
      ResolveCounts(w, w', s, f, copy);
      CowPagesAreOwned(sp, p);
      CopiedOk(w, w', sp, w'.spaces[s], p, f, copy);
    }
    CopyOthers(w, w', s, f, copy);
  }

  lemma CopyOthers(w: World, w': World, s: SpaceId, f: Frame, copy: Frame)
    requires Inv(w) && s in w'.spaces && w'.spaces == w.spaces[s := w'.spaces[s]]
    requires f in w.refs && w.refs[f] > 1 && copy in w.refs && w.refs[copy] == 0
    requires w'.refs == w.refs[copy := 1][f := w.refs[f] - 1] && w'.content.Keys == w.content.Keys
    requires forall g :: IsDevice(w, g) ==> IsDevice(w', g)
    ensures forall t {:trigger SpaceOk(w', w'.spaces[t])} :: t in w'.spaces && t != s ==> SpaceOk(w', w'.spaces[t])
  {
    forall t | t in w'.spaces && t != s
      ensures SpaceOk(w', w'.spaces[t])
    {
      assert w'.spaces[t] == w.spaces[t] && SpaceOk(w, w.spaces[t]);
      ResolveUndisturbed(w, w', w.spaces[t], f, copy);
      UndisturbedIsOk(w, w', w.spaces[t]);
    }
  }

  lemma ResolveDevices(w: World, w': World, copy: Frame)
    requires CanAllocate(w, copy) && w'.state == w.state[copy := Allocated]
    ensures forall g :: IsDevice(w, g) ==> IsDevice(w', g)
  {
  }

  lemma ResolveUndisturbed(w: World, w': World, sp: Space, f: Frame, copy: Frame)
    requires f in w.refs && w.refs[f] > 1 && copy in w.refs && w.refs[copy] == 0
    requires w'.refs == w.refs[copy := 1][f := w.refs[f] - 1] && w'.content.Keys == w.content.Keys
    requires forall g :: IsDevice(w, g) ==> IsDevice(w', g)
    ensures Undisturbed(w, w', sp)
  {
  }

  /** The copy is counted once; the original loses one reference and stays allocated. */
  lemma ResolveRefs(w: World, s: SpaceId, p: Page, f: Frame, copy: Frame)
    requires s in w.spaces && p in w.spaces[s].leaves && w.spaces[s].leaves[p].cow
    requires f == w.spaces[s].leaves[p].frame && f in w.refs && w.refs[f] > 1
    requires CanAllocate(w, copy) && copy in w.refs && w.refs[copy] == 0 && w.refs.Keys <= w.content.Keys
    requires IndexOf(w.spaces[s].owned, p) < |w.spaces[s].owned|
    ensures var w' := ResolveStep(w, s, p, copy);
      && w'.spaces == w.spaces[s := Copied(w.spaces[s], p, copy)]
      && w'.refs == w.refs[copy := 1][f := w.refs[f] - 1]
      && w'.state == w.state[copy := Allocated] && w'.held == w.held
      && w'.content == w.content[copy := w.content[f]]
  {
    var w' := ResolveStep(w, s, p, copy);
    assert w'.refs == w.refs[copy := 1][f := w.refs[f] - 1];
    assert w'.state == w.state[copy := Allocated];
  }

  lemma ResolveCounts(w: World, w': World, s: SpaceId, f: Frame, copy: Frame)
    requires CountsExact(w) && s in w.spaces && f in w.refs && w.refs[f] > 1 && f in Frames(w.spaces[s].owned)
    requires CanAllocate(w, copy)
    requires s in w'.spaces && w'.spaces == w.spaces[s := w'.spaces[s]]
    requires Frames(w'.spaces[s].owned) == Frames(w.spaces[s].owned) - {f} + {copy}
    requires w'.refs == w.refs[copy := 1][f := w.refs[f] - 1]
    requires w'.state == w.state[copy := Allocated] && w'.held == w.held && w'.content.Keys == w.content.Keys
    ensures CountsExact(w')
  {
    FreeIsUnused(w, copy);
    forall g | g in w'.refs
      ensures w'.refs[g] == |Users(w', g)| + w'.held[g]
    {
      assert w.refs[g] == |Users(w, g)| + w.held[g];
      UsersAfterUpdate(w, w', s, g);
    }
  }

  lemma CopiedOk(w: World, w': World, sp: Space, sp': Space, p: Page, f: Frame, copy: Frame)
    requires SpaceOk(w, sp) && ValidSpace(sp') && p in sp.leaves && p !in Pages(sp.devices)
    requires copy !in Frames(sp.owned) && f in Frames(sp.owned)
    requires f == sp.leaves[p].frame && f in w.refs && w.refs[f] > 1 && copy in w.refs
    requires sp'.leaves == sp.leaves[p := sp.leaves[p].(cow := false, writable := true, frame := copy)]
    requires sp'.devices == sp.devices
    requires Pages(sp'.owned) == Pages(sp.owned) && Frames(sp'.owned) == Frames(sp.owned) - {f} + {copy}
    requires w'.refs == w.refs[copy := 1][f := w.refs[f] - 1]
    requires w'.content.Keys == w.content.Keys && (forall g :: IsDevice(w, g) ==> IsDevice(w', g))
    ensures SpaceOk(w', sp')
  {
    CopiedOwned(w.refs, w'.refs, sp, sp', p, f, copy);
    CopiedDevices(w, w', sp, sp', p);
  }

  lemma CopiedDevices(w: World, w': World, sp: Space, sp': Space, p: Page)
    requires DevicesOk(w, sp) && sp'.devices == sp.devices && p !in Pages(sp.devices)
    requires forall q :: q in sp'.leaves && q != p ==> q in sp.leaves && sp'.leaves[q] == sp.leaves[q]
    requires w'.content.Keys == w.content.Keys && forall g :: IsDevice(w, g) ==> IsDevice(w', g)
    ensures DevicesOk(w', sp')
  {
  }

  lemma CopiedOwned(refs: map<Frame, nat>, refs': map<Frame, nat>, sp: Space, sp': Space, p: Page, f: Frame,
                    copy: Frame)
    requires ValidSpace(sp) && OwnedOk(refs, sp) && p in sp.leaves && copy !in Frames(sp.owned) && f in Frames(sp.owned)
    requires f == sp.leaves[p].frame && f in refs && refs[f] > 1 && copy in refs
    requires refs' == refs[copy := 1][f := refs[f] - 1]
    requires sp'.leaves == sp.leaves[p := sp.leaves[p].(cow := false, writable := true, frame := copy)]
    requires Pages(sp'.owned) == Pages(sp.owned) && Frames(sp'.owned) == Frames(sp.owned) - {f} + {copy}
    ensures OwnedOk(refs', sp')
  {
    forall q | q in Pages(sp'.owned) && q in sp'.leaves && sp'.leaves[q].writable
      ensures sp'.leaves[q].frame in refs' && refs'[sp'.leaves[q].frame] == 1
    {
      CopiedLeaf(refs, refs', sp, p, f, copy, q);
    }
  }

  lemma CopiedLeaf(refs: map<Frame, nat>, refs': map<Frame, nat>, sp: Space, p: Page, f: Frame, copy: Frame, q: Page)
    requires ValidSpace(sp) && OwnedOk(refs, sp) && p in sp.leaves && copy !in Frames(sp.owned)
    requires f == sp.leaves[p].frame && f in refs && refs[f] > 1 && f != copy
    requires refs' == refs[copy := 1][f := refs[f] - 1]
    requires q in Pages(sp.owned) && q in sp.leaves && (q == p || sp.leaves[q].writable)
    ensures var leaf := if q == p then sp.leaves[p].(cow := false, writable := true, frame := copy) else sp.leaves[q];
      leaf.frame in refs' && refs'[leaf.frame] == 1
  {
    LeafFrame(sp, q);
  }

  /** A sole reference is made writable again without a copy. */
  lemma ReclaimKeeps(w: World, s: SpaceId, p: Page)
    requires Inv(w) && s in w.spaces && p in w.spaces[s].leaves && w.spaces[s].leaves[p].cow
    requires Refcount(w, w.spaces[s].leaves[p].frame) <= 1
    ensures var sp := w.spaces[s];
      Inv(w.(spaces := w.spaces[s := sp.(leaves := sp.leaves[p := sp.leaves[p].(cow := false, writable := true)])]))
  {
    var sp := w.spaces[s];
    var leaf := sp.leaves[p].(cow := false, writable := true);
    var sp' := sp.(leaves := sp.leaves[p := leaf]);
    assert SpaceOk(w, sp') by {
      assert SpaceOk(w, sp);
      CowPagesAreOwned(sp, p);
      OwnedIsReferenced(w, s);
      RewriteOneValid(sp, p, leaf);
    }
    LeavesOnly(w, s, sp');
  }

  lemma ResolveKeeps(w: World, s: SpaceId, p: Page, copy: Option<Frame>)
    requires Inv(w) && s in w.spaces && !NoCopyLeft(w, s, p, copy)
    requires copy.Some? ==> CanAllocate(w, copy.value)
    ensures Inv(ResolveStep(w, s, p, if copy.Some? then copy.value else 0))
  {
    var sp := w.spaces[s];
    if p in sp.leaves && sp.leaves[p].cow {
      if Refcount(w, sp.leaves[p].frame) > 1 {
        ResolveCopyKeeps(w, s, p, copy.value);
      } else {
        ReclaimKeeps(w, s, p);
      }
    }
  }

  lemma ContentOnly(w: World, w': World)
    requires Inv(w) && w'.content.Keys == w.content.Keys && w' == w.(content := w'.content)
    ensures Inv(w')
  {
    forall f | f in w'.refs
      ensures Users(w', f) == Users(w, f)
    {
    }
    forall t | t in w'.spaces
      ensures SpaceOk(w', w'.spaces[t])
    {
      UndisturbedIsOk(w, w', w.spaces[t]);
    }
  }

  lemma StoreKeeps(w: World, s: SpaceId, p: Page, offset: nat, b: Byte, copy: Option<Frame>)
    requires Inv(w) && s in w.spaces && offset < PAGE_BYTES
    requires copy.Some? ==> CanAllocate(w, copy.value)
    ensures Inv(StoreStep(w, s, p, offset, b, copy))
  {
    if !NoCopyLeft(w, s, p, copy) {
      var w1 := ResolveStep(w, s, p, if copy.Some? then copy.value else 0);
      assert Inv(w1) by {
        ResolveKeeps(w, s, p, copy);
      }
      assert s in w1.spaces;
      WriteKeeps(w1, s, p, offset, b, WriteStep(w1, s, p, offset, b));
    }
  }

  lemma WriteKeeps(w: World, s: SpaceId, p: Page, offset: nat, b: Byte, w': World)
    requires Inv(w) && s in w.spaces && offset < PAGE_BYTES && w' == WriteStep(w, s, p, offset, b)
    ensures Inv(w')
  {
    ContentOnly(w, w');
  }

  // ---- the kernel's own references

  /** `w'` differs from `w` in the kernel's references to `f` and their count only. */
  ghost predicate HeldChange(w: World, w': World, f: Frame) {
    && w'.spaces == w.spaces && w'.content.Keys == w.content.Keys
    && w'.refs.Keys == w.refs.Keys && w'.state.Keys == w.state.Keys && f in w.refs && f in w.state
    && (forall g :: g in w.refs && g != f ==> w'.refs[g] == w.refs[g])
    && (forall g :: g in w.state && g != f ==> w'.state[g] == w.state[g])
    && (forall g :: g != f ==> w'.held[g] == w.held[g])
    && w'.refs[f] + w.held[f] == w.refs[f] + w'.held[f]
    && w.state[f] != Reserved && (w'.state[f] == Allocated <==> w'.refs[f] > 0)
    && (f in w.held || w.state[f] == Free)
  }

  lemma HeldCounts(w: World, w': World, f: Frame)
    requires CountsExact(w) && HeldChange(w, w', f)
    ensures CountsExact(w')
  {
    forall g | g in w'.refs
      ensures w'.refs[g] == |Users(w', g)| + w'.held[g]
    {
      assert Users(w', g) == Users(w, g);
    }
  }

  lemma HeldUndisturbed(w: World, w': World, f: Frame, t: SpaceId)
    requires CountsExact(w) && t in w.spaces && HeldChange(w, w', f)
    ensures Undisturbed(w, w', w.spaces[t])
  {
    if f in Frames(w.spaces[t].owned) && w.refs[f] == 1 {
      SoleUser(w, t, f);
      assert false;
    }
  }

  lemma HeldKeeps(w: World, w': World, f: Frame)
    requires Inv(w) && HeldChange(w, w', f)
    ensures Inv(w')
  {
    HeldCounts(w, w', f);
    forall t | t in w'.spaces
      ensures SpaceOk(w', w'.spaces[t])
    {
      assert SpaceOk(w, w.spaces[t]);
      HeldUndisturbed(w, w', f, t);
      UndisturbedIsOk(w, w', w.spaces[t]);
    }
  }

  lemma KernelAllocKeeps(w: World, f: Frame, c: Content)
    requires Inv(w) && Enabled(w, KernelAlloc(f, c))
    ensures Inv(Next(w, KernelAlloc(f, c)))
  {
    FreeIsUnused(w, f);
    HeldKeeps(w, Next(w, KernelAlloc(f, c)), f);
  }

  lemma KernelGetKeeps(w: World, f: Frame)
    requires Inv(w) && Enabled(w, KernelGet(f))
    ensures Inv(Next(w, KernelGet(f)))
  {
    HeldKeeps(w, Next(w, KernelGet(f)), f);
  }

  lemma KernelFreeKeeps(w: World, f: Frame)
    requires Inv(w) && Enabled(w, KernelFree(f))
    ensures Inv(Next(w, KernelFree(f)))
  {
    HeldKeeps(w, Next(w, KernelFree(f)), f);
  }

  lemma MappingKeepsInv(w: World, step: Step)
    requires Inv(w) && Enabled(w, step)
    requires step.New? || step.MapOwned? || step.MapDevice? || step.Protect? || step.Unmap?
    ensures Inv(Next(w, step))
  {
    match step {
      case New(s) => NewKeeps(w, s);
      case MapOwned(s, p, flags, f) => MapOwnedKeeps(w, s, p, flags, f);
      case MapDevice(s, p, flags, cache, f) => MapDeviceKeeps(w, s, p, flags, cache, f);
      case Protect(s, p, flags) => ProtectKeeps(w, s, p, flags);
      case Unmap(s, p) => UnmapKeeps(w, s, p);
    }
  }

  lemma ForkingKeepsInv(w: World, step: Step)
    requires Inv(w) && Enabled(w, step) && (step.Fork? || step.ForkFailed? || step.ForkCutOff?)
    ensures Inv(Next(w, step))
  {
    match step {
      case Fork(s, child) => ForkKeeps(w, s, child);
      case ForkFailed(s, n) => ForkFailedKeeps(w, s, n);
      case ForkCutOff(s, n) => ForkCutOffKeeps(w, s, n);
    }
  }

  lemma KernelKeepsInv(w: World, step: Step)
    requires Inv(w) && Enabled(w, step) && (step.KernelAlloc? || step.KernelGet? || step.KernelFree?)
    ensures Inv(Next(w, step))
  {
    match step {
      case KernelAlloc(f, c) => KernelAllocKeeps(w, f, c);
      case KernelGet(f) => KernelGetKeeps(w, f);
      case KernelFree(f) => KernelFreeKeeps(w, f);
    }
  }

  /** Every step keeps the invariant. */
  lemma StepKeepsInv(w: World, step: Step)
    requires Inv(w) && Enabled(w, step)
    ensures Inv(Next(w, step))
  {
    if step.Store? {
      StoreKeeps(w, step.s, step.p, step.offset, step.b, step.copy);
    } else if step.Exit? {
      ExitKeeps(w, step.s);
    } else if step.Fork? || step.ForkFailed? || step.ForkCutOff? {
      ForkingKeepsInv(w, step);
    } else if step.KernelAlloc? || step.KernelGet? || step.KernelFree? {
      KernelKeepsInv(w, step);
    } else {
      MappingKeepsInv(w, step);
    }
  }

  /** An owned frame is hardware-writable through at most one page of one space. */
  lemma WritableOnce(w: World, s: SpaceId, p: Page, t: SpaceId, q: Page)
    requires Inv(w) && s in w.spaces && t in w.spaces
    requires p in Pages(w.spaces[s].owned) && q in Pages(w.spaces[t].owned)
    requires p in w.spaces[s].leaves && q in w.spaces[t].leaves
    requires w.spaces[s].leaves[p].frame == w.spaces[t].leaves[q].frame
    requires w.spaces[s].leaves[p].writable
    ensures s == t && p == q
  {
    assert SpaceOk(w, w.spaces[s]) && SpaceOk(w, w.spaces[t]);
    LeafFrame(w.spaces[s], p);
    LeafFrame(w.spaces[t], q);
    SoleUser(w, s, w.spaces[s].leaves[p].frame);
    OnePagePerFrame(w.spaces[s], p, q);
  }

  lemma OnePagePerFrame(sp: Space, p: Page, q: Page)
    requires ValidSpace(sp) && p in Pages(sp.owned) && q in Pages(sp.owned)
    requires p in sp.leaves && q in sp.leaves && sp.leaves[p].frame == sp.leaves[q].frame
    ensures p == q
  {
    var i := FindPage(sp.owned, p);
    var j := FindPage(sp.owned, q);
    assert sp.owned[i] in sp.owned && sp.owned[j] in sp.owned;
    if i < j {
      FramesDiffer(sp.owned, i, j);
    } else if j < i {
      FramesDiffer(sp.owned, j, i);
    }
  }

  lemma {:induction false} FramesDiffer(ms: seq<Mapping>, i: nat, j: nat)
    requires DistinctFrames(ms) && i < j < |ms|
    ensures ms[i].frame != ms[j].frame
  {
    var n := |ms| - 1;
    if j == n {
      Listed(ms[..n], ms[..n][i]);
    } else {
      FramesDiffer(ms[..n], i, j);
    }
  }
}
