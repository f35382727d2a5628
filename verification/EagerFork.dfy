/** The kernel that `CopyOnWrite` must be indistinguishable from: fork copies every page. */
module EagerFork {
  import opened Bytes
  import opened Outcomes
  import opened PageLeaves
  import opened CopyOnWrite
  import opened CopyOnWriteProofs

  /** What a process may do with a page; `write` is the process's view, copy-on-write or not. */
  datatype Access = Access(user: bool, write: bool, execute: bool, cache: nat)

  datatype EagerPage =
    | Private(content: Content, access: Access)
    | Device(frame: Frame, access: Access)

  datatype Eager = Eager(spaces: map<SpaceId, map<Page, EagerPage>>, devices: map<Frame, Content>)

  function Grant(flags: Flags, cache: nat): Access {
    Access(flags.user, flags.writable, flags.execute, cache)
  }

  function SetPage(e: Eager, s: SpaceId, p: Page, page: EagerPage): Eager
    requires s in e.spaces
  {
    var pages: map<Page, EagerPage> := e.spaces[s][p := page];
    e.(spaces := e.spaces[s := pages])
  }

  /** Storing a byte through a page of the eager kernel. */
  function EagerStore(e: Eager, s: SpaceId, p: Page, offset: nat, b: Byte): Eager
    requires s in e.spaces && offset < PAGE_BYTES
  {
    if p !in e.spaces[s] || !e.spaces[s][p].access.user || !e.spaces[s][p].access.write then e
    else match e.spaces[s][p]
      case Private(c, access) =>
        SetPage(e, s, p, Private(SetByte(c, offset, b), access))
      case Device(f, _) =>
        if f in e.devices then e.(devices := e.devices[f := SetByte(e.devices[f], offset, b)]) else e
  }

  /** One step of the eager kernel. */
  ghost predicate EagerNext(e: Eager, step: Step, e': Eager) {
    match step
    case New(s) => e' == e.(spaces := e.spaces[s := map[]])
    case MapOwned(s, p, flags, _) =>
      s in e.spaces && e' == SetPage(e, s, p, Private(Zeroed(), Grant(flags, 0)))
    case MapDevice(s, p, flags, cache, f) =>
      s in e.spaces && e' == SetPage(e, s, p, Device(f, Grant(flags, cache)))
    case Protect(s, p, flags) =>
      s in e.spaces && e' == if p !in e.spaces[s] then e else
        var page := e.spaces[s][p];
        SetPage(e, s, p, page.(access := Grant(flags, page.access.cache)))
    case Unmap(s, p) => s in e.spaces && e' == e.(spaces := e.spaces[s := e.spaces[s] - {p}])
    case Fork(s, child) => s in e.spaces && e' == e.(spaces := e.spaces[child := e.spaces[s]])
    case ForkFailed(_, _) => e' == e
    case ForkCutOff(_, _) => e' == e
    case Store(s, p, offset, b, _) =>
      s in e.spaces && offset < PAGE_BYTES && e' == EagerStore(e, s, p, offset, b)
    case Exit(s) => e' == e.(spaces := e.spaces - {s})
    case KernelAlloc(_, _) => e' == e
    case KernelGet(_) => e' == e
    case KernelFree(_) => e' == e
  }

  // ---- the abstraction ---------------------------------------------------------------

  function ContentOf(w: World, f: Frame): Content {
    if f in w.content then w.content[f] else Zeroed()
  }

  function PageView(w: World, leaf: Leaf, device: bool): EagerPage {
    var access := Access(leaf.user, leaf.writable || leaf.cow, leaf.execute, leaf.cache);
    if device then Device(leaf.frame, access) else Private(ContentOf(w, leaf.frame), access)
  }

  function SpaceView(w: World, sp: Space): map<Page, EagerPage> {
    map p | p in sp.leaves :: PageView(w, sp.leaves[p], p in Pages(sp.devices))
  }

  function DeviceView(w: World): map<Frame, Content> {
    map f | f in w.content && IsDevice(w, f) :: w.content[f]
  }

  /** What every process sees, and the device memory. */
  function WorldView(w: World): Eager {
    Eager(map s | s in w.spaces :: SpaceView(w, w.spaces[s]), DeviceView(w))
  }

  // ---- what does not change ------------------------------------------------------------

  ghost predicate SameDevices(w: World, w': World) {
    && (forall f :: f in w.content && IsDevice(w, f) <==> f in w'.content && IsDevice(w', f))
    && (forall f :: f in w.content && IsDevice(w, f) ==> w'.content[f] == w.content[f])
  }

  /** The frames a space owns hold what they held. */
  ghost predicate SameBytes(w: World, w': World, sp: Space) {
    forall f :: f in Frames(sp.owned) ==> ContentOf(w', f) == ContentOf(w, f)
  }

  lemma SpaceViewKept(w: World, w': World, sp: Space)
    requires ValidSpace(sp) && SameBytes(w, w', sp)
    ensures SpaceView(w', sp) == SpaceView(w, sp)
  {
    forall p | p in sp.leaves
      ensures SpaceView(w', sp)[p] == SpaceView(w, sp)[p]
    {
      if p !in Pages(sp.devices) {
        LeafFrame(sp, p);
      }
    }
  }

  /** A step that touches one space shows as a change of that space. */
  lemma DevicesKept(w: World, w': World)
    requires SameDevices(w, w')
    ensures DeviceView(w') == DeviceView(w)
  {
  }

  lemma SpacesKept(w: World, w': World, s: SpaceId)
    requires Inv(w) && s in w.spaces && SameBytes(w, w', w.spaces[s])
    ensures SpaceView(w', w.spaces[s]) == SpaceView(w, w.spaces[s])
  {
    assert SpaceOk(w, w.spaces[s]);
    SpaceViewKept(w, w', w.spaces[s]);
  }

  /** All but one of the spaces look the same, and so do the devices. */
  lemma OneSpaceSeen(w: World, w': World, s: SpaceId)
    requires DeviceView(w') == DeviceView(w) && s in w'.spaces && w'.spaces.Keys == w.spaces.Keys + {s}
    requires forall t :: t in w.spaces && t != s ==> SpaceView(w', w'.spaces[t]) == SpaceView(w, w.spaces[t])
    ensures WorldView(w') == WorldView(w).(spaces := WorldView(w).spaces[s := SpaceView(w', w'.spaces[s])])
  {
    assert WorldView(w').spaces == WorldView(w).spaces[s := SpaceView(w', w'.spaces[s])];
  }

  lemma AllSpacesSeen(w: World, w': World)
    requires DeviceView(w') == DeviceView(w) && w'.spaces.Keys == w.spaces.Keys
    requires forall t :: t in w.spaces ==> SpaceView(w', w'.spaces[t]) == SpaceView(w, w.spaces[t])
    ensures WorldView(w') == WorldView(w)
  {
    assert WorldView(w').spaces == WorldView(w).spaces;
  }

  lemma OneSpaceChanges(w: World, w': World, s: SpaceId)
    requires Inv(w) && SameDevices(w, w')
    requires s in w'.spaces && w'.spaces == w.spaces[s := w'.spaces[s]]
    requires forall t {:trigger SameBytes(w, w', w.spaces[t])} ::
          t in w.spaces && t != s ==> SameBytes(w, w', w.spaces[t])
    ensures WorldView(w') == WorldView(w).(spaces := WorldView(w).spaces[s := SpaceView(w', w'.spaces[s])])
  {
    forall t | t in w.spaces && t != s
      ensures SpaceView(w', w'.spaces[t]) == SpaceView(w, w.spaces[t])
    {
      SpacesKept(w, w', t);
    }
    DevicesKept(w, w');
    OneSpaceSeen(w, w', s);
  }

  lemma NoSpaceChanges(w: World, w': World)
    requires Inv(w) && SameDevices(w, w') && w'.spaces == w.spaces
    requires forall t {:trigger SameBytes(w, w', w.spaces[t])} :: t in w.spaces ==> SameBytes(w, w', w.spaces[t])
    ensures WorldView(w') == WorldView(w)
  {
    forall t | t in w.spaces
      ensures SpaceView(w', w'.spaces[t]) == SpaceView(w, w.spaces[t])
    {
      SpacesKept(w, w', t);
    }
    DevicesKept(w, w');
    AllSpacesSeen(w, w');
  }

  // ---- each step, as processes see it ----------------------------------------------------

  lemma NewSeen(w: World, s: SpaceId)
    requires Inv(w) && s !in w.spaces
    ensures WorldView(NewSpaceStep(w, s)) == WorldView(w).(spaces := WorldView(w).spaces[s := map[]])
  {
    OneSpaceChanges(w, NewSpaceStep(w, s), s);
  }

  /** A fresh frame is nobody's: handing it out changes no bytes anyone sees. */
  lemma FreshUnseen(w: World, w': World, f: Frame, c: Content)
    requires CountsExact(w) && CanAllocate(w, f)
    requires w'.content == w.content[f := c] && w'.state == w.state[f := Allocated]
    ensures SameDevices(w, w')
    ensures forall t {:trigger SameBytes(w, w', w.spaces[t])} :: t in w.spaces ==> SameBytes(w, w', w.spaces[t])
  {
    FreeIsUnused(w, f);
  }

  /** From one page of one space to the whole view. */
  lemma PageSet(w: World, w': World, s: SpaceId, p: Page, page: EagerPage)
    requires s in w.spaces && s in w'.spaces
    requires WorldView(w') == WorldView(w).(spaces := WorldView(w).spaces[s := SpaceView(w', w'.spaces[s])])
    requires SpaceView(w', w'.spaces[s]) == SpaceView(w, w.spaces[s])[p := page]
    ensures WorldView(w') == SetPage(WorldView(w), s, p, page)
  {
    SpaceViewIsPart(w, s);
  }

  lemma FreshPageSeen(w: World, w': World, s: SpaceId, p: Page, f: Frame, c: Content)
    requires Inv(w) && s in w.spaces && p !in w.spaces[s].leaves && CanAllocate(w, f)
    requires w'.content == w.content[f := c] && w'.state == w.state[f := Allocated]
    requires s in w'.spaces && w'.spaces == w.spaces[s := w'.spaces[s]]
    requires p in w'.spaces[s].leaves && w'.spaces[s].leaves == w.spaces[s].leaves[p := w'.spaces[s].leaves[p]]
    requires w'.spaces[s].devices == w.spaces[s].devices && p !in Pages(w.spaces[s].devices)
    ensures WorldView(w') == SetPage(WorldView(w), s, p, PageView(w', w'.spaces[s].leaves[p], false))
  {
    var sp := w.spaces[s];
    FreshUnseen(w, w', f, c);
    assert SpaceView(w', sp) == SpaceView(w, sp) && ValidSpace(sp) by {
      assert SpaceOk(w, sp) && SameBytes(w, w', sp);
      SpaceViewKept(w, w', sp);
    }
    AddedPageSeen(w', sp, w'.spaces[s], p);
    OneSpaceChanges(w, w', s);
    PageSet(w, w', s, p, PageView(w', w'.spaces[s].leaves[p], false));
  }

  lemma MapOwnedSeen(w: World, s: SpaceId, p: Page, flags: Flags, f: Frame)
    requires Inv(w) && s in w.spaces && p !in w.spaces[s].leaves && CanAllocate(w, f)
    ensures WorldView(MapOwnedStep(w, s, p, flags, f)) ==
        SetPage(WorldView(w), s, p, Private(Zeroed(), Grant(flags, 0)))
  {
    assert p !in Pages(w.spaces[s].devices) by {
      assert SpaceOk(w, w.spaces[s]);
    }
    FreshPageSeen(w, MapOwnedStep(w, s, p, flags, f), s, p, f, Zeroed());
  }

  /** One more leaf shows as one more page. */
  lemma AddedPageSeen(w: World, sp: Space, sp': Space, p: Page)
    requires ValidSpace(sp) && p !in sp.leaves && p in sp'.leaves && sp'.leaves == sp.leaves[p := sp'.leaves[p]]
    requires Pages(sp'.devices) - {p} == Pages(sp.devices)
    ensures SpaceView(w, sp') == SpaceView(w, sp)[p := PageView(w, sp'.leaves[p], p in Pages(sp'.devices))]
  {
  }

  lemma MapDeviceSeen(w: World, s: SpaceId, p: Page, flags: Flags, cache: nat, f: Frame)
    requires Inv(w) && s in w.spaces && p !in w.spaces[s].leaves
    ensures WorldView(MapDeviceStep(w, s, p, flags, cache, f)) ==
        SetPage(WorldView(w), s, p, Device(f, Grant(flags, cache)))
  {
    var w' := MapDeviceStep(w, s, p, flags, cache, f);
    var sp := w.spaces[s];
    OneSpaceChanges(w, w', s);
    assert SpaceOk(w, sp) && SameBytes(w, w', sp);
    SpaceViewKept(w, w', sp);
    AppendOne(sp.devices, Mapping(p, f));
    AddedPageSeen(w', sp, w'.spaces[s], p);
    PageSet(w, w', s, p, Device(f, Grant(flags, cache)));
  }

  /** Rewriting one leaf shows as a change of that page. */
  lemma RewrittenPageSeen(w: World, w': World, s: SpaceId, p: Page, leaf: Leaf)
    requires Inv(w) && s in w.spaces && p in w.spaces[s].leaves
    requires w' == w.(spaces := w.spaces[s := w.spaces[s].(leaves := w.spaces[s].leaves[p := leaf])])
    ensures WorldView(w') == SetPage(WorldView(w), s, p, PageView(w, leaf, p in Pages(w.spaces[s].devices)))
  {
    var sp := w.spaces[s];
    OneSpaceChanges(w, w', s);
    OneLeafRewritten(w, w', sp, p, leaf);
    PageSet(w, w', s, p, PageView(w, leaf, p in Pages(sp.devices)));
  }

  lemma OneLeafRewritten(w: World, w': World, sp: Space, p: Page, leaf: Leaf)
    requires p in sp.leaves && w'.content == w.content
    ensures SpaceView(w', sp.(leaves := sp.leaves[p := leaf])) ==
            SpaceView(w, sp)[p := PageView(w, leaf, p in Pages(sp.devices))]
  {
  }

  lemma ProtectSeen(w: World, s: SpaceId, p: Page, flags: Flags)
    requires Inv(w) && s in w.spaces && p in w.spaces[s].leaves
    ensures p in WorldView(w).spaces[s]
    ensures var page := WorldView(w).spaces[s][p];
      WorldView(ProtectStep(w, s, p, flags)) ==
      SetPage(WorldView(w), s, p, page.(access := Grant(flags, page.access.cache)))
  {
    RewrittenPageSeen(w, ProtectStep(w, s, p, flags), s, p, Protected(w, w.spaces[s].leaves[p], flags));
  }

  lemma UnmapSeen(w: World, s: SpaceId, p: Page)
    requires Inv(w) && s in w.spaces
    ensures WorldView(UnmapStep(w, s, p)) ==
            WorldView(w).(spaces := WorldView(w).spaces[s := WorldView(w).spaces[s] - {p}])
  {
    var w' := UnmapStep(w, s, p);
    var sp := w.spaces[s];
    UnmapShape(w, s, p);
    OneSpaceChanges(w, w', s);
    RemovedPageSeen(w, w', sp, w'.spaces[s], p);
    SpaceViewIsPart(w, s);
  }

  lemma RemovedPageSeen(w: World, w': World, sp: Space, sp': Space, p: Page)
    requires sp'.leaves == sp.leaves - {p} && Pages(sp'.devices) - {p} == Pages(sp.devices) - {p}
    requires w'.content == w.content
    ensures SpaceView(w', sp') == SpaceView(w, sp) - {p}
  {
    forall q | q in sp'.leaves
      ensures q in Pages(sp'.devices) <==> q in Pages(sp.devices)
    {
      assert q in Pages(sp'.devices) - {p} <==> q in Pages(sp.devices) - {p};
    }
  }

  lemma UnmapShape(w: World, s: SpaceId, p: Page)
    requires Inv(w) && s in w.spaces
    ensures var w' := UnmapStep(w, s, p);
      && w'.content == w.content && SameDevices(w, w')
      && s in w'.spaces && w'.spaces == w.spaces[s := w'.spaces[s]]
      && w'.spaces[s].leaves == w.spaces[s].leaves - {p}
      && Pages(w'.spaces[s].devices) - {p} == Pages(w.spaces[s].devices) - {p}
  {
    var sp := w.spaces[s];
    if p !in sp.leaves {
      assert sp.leaves - {p} == sp.leaves;
    } else {
      assert SpaceOk(w, sp);
      var d := IndexOf(sp.devices, p);
      if d < |sp.devices| {
        RemovePage(sp.devices, d);
      } else {
        UnmapOwnedShape(w, s, p);
      }
    }
  }

  lemma UnmapOwnedShape(w: World, s: SpaceId, p: Page)
    requires CountsExact(w) && s in w.spaces && p in w.spaces[s].leaves
    requires IndexOf(w.spaces[s].devices, p) == |w.spaces[s].devices|
    ensures var w' := UnmapStep(w, s, p);
      && w'.content == w.content && SameDevices(w, w')
      && s in w'.spaces && w'.spaces == w.spaces[s := w'.spaces[s]]
      && w'.spaces[s].leaves == w.spaces[s].leaves - {p} && w'.spaces[s].devices == w.spaces[s].devices
  {
    var sp := w.spaces[s];
    var i := IndexOf(sp.owned, p);
    if i < |sp.owned| && sp.owned[i].frame == sp.leaves[p].frame {
      ExitDevices(w, UnmapStep(w, s, p), {sp.owned[i].frame});
    }
  }

  /** Turning leaves copy-on-write is invisible. */
  lemma ShareUnseen(w: World, sp: Space, pages: set<Page>)
    ensures SpaceView(w, sp.(leaves := ShareLeaves(sp.leaves, pages))) == SpaceView(w, sp)
  {
  }

  lemma ForkFailedSeen(w: World, s: SpaceId, n: nat)
    requires Inv(w) && s in w.spaces && n <= |w.spaces[s].owned|
    ensures WorldView(ForkFailedStep(w, s, n)) == WorldView(w)
  {
    var w' := ForkFailedStep(w, s, n);
    SpacesOnly(w, w');
    ShareUnseen(w, w.spaces[s], Pages(w.spaces[s].owned[..n]));
    forall t | t in w.spaces
      ensures SpaceView(w', w'.spaces[t]) == SpaceView(w, w.spaces[t])
    {
      SameMemorySameView(w, w', w'.spaces[t]);
    }
    AllSpacesSeen(w, w');
  }

  /** What a space looks like depends on the memory alone. */
  lemma SameMemorySameView(w: World, w': World, sp: Space)
    requires w'.content == w.content
    ensures SpaceView(w', sp) == SpaceView(w, sp)
  {
  }

  lemma SpacesOnly(w: World, w': World)
    requires w'.content == w.content && w'.state == w.state
    ensures DeviceView(w') == DeviceView(w)
  {
  }

  lemma ForkCutOffSeen(w: World, s: SpaceId, n: nat)
    requires Inv(w) && s in w.spaces && n <= |w.spaces[s].owned|
    ensures WorldView(ForkLeakedStep(w, s, n)) == WorldView(w)
  {
    var visited := Visiting(w.spaces[s].owned, n);
    ForkFailedSeen(w, s, visited);
    ForkFailedKeeps(w, s, visited);
    NoSpaceChanges(ForkFailedStep(w, s, visited), ForkLeakedStep(w, s, n));
  }

  lemma ForkSeen(w: World, s: SpaceId, child: SpaceId)
    requires Inv(w) && s in w.spaces && child !in w.spaces
    ensures WorldView(ForkStep(w, s, child)) ==
        WorldView(w).(spaces := WorldView(w).spaces[child := WorldView(w).spaces[s]])
  {
    var n := |w.spaces[s].owned|;
    var w1 := ForkFailedStep(w, s, n);
    assert w.spaces[s].owned[..n] == w.spaces[s].owned;
    ForkFailedKeeps(w, s, n);
    ForkFailedSeen(w, s, n);
    assert WorldView(w).spaces[s] == SpaceView(w1, w1.spaces[s]);
    ChildSeen(w1, ForkStep(w, s, child), s, child);
  }

  lemma ChildSeen(w: World, w': World, s: SpaceId, child: SpaceId)
    requires Inv(w) && s in w.spaces && w'.spaces == w.spaces[child := w.spaces[s]]
    requires w'.content == w.content && w'.state == w.state
    ensures WorldView(w') == WorldView(w).(spaces := WorldView(w).spaces[child := SpaceView(w, w.spaces[s])])
  {
    OneSpaceChanges(w, w', child);
    assert SpaceView(w', w'.spaces[child]) == SpaceView(w, w.spaces[s]);
  }

  lemma ExitSeen(w: World, s: SpaceId)
    requires Inv(w) && s in w.spaces
    ensures WorldView(ExitStep(w, s)) == WorldView(w).(spaces := WorldView(w).spaces - {s})
  {
    var w' := ExitStep(w, s);
    forall t | t in w'.spaces
      ensures SpaceView(w', w'.spaces[t]) == SpaceView(w, w.spaces[t])
    {
    }
    ExitDevices(w, w', Frames(w.spaces[s].owned));
    assert DeviceView(w') == DeviceView(w);
    assert WorldView(w').spaces == WorldView(w).spaces - {s};
  }

  lemma ExitDevices(w: World, w': World, fs: set<Frame>)
    requires CountsExact(w) && w'.state == DropStates(w.state, w.refs, fs) && w'.content == w.content
    ensures SameDevices(w, w')
  {
  }

  // ---- stores

  lemma ReclaimUnseen(w: World, s: SpaceId, p: Page, copy: Frame)
    requires Inv(w) && s in w.spaces && p in w.spaces[s].leaves && w.spaces[s].leaves[p].cow
    requires Refcount(w, w.spaces[s].leaves[p].frame) <= 1
    ensures WorldView(ResolveStep(w, s, p, copy)) == WorldView(w)
  {
    var sp := w.spaces[s];
    var leaf := sp.leaves[p].(cow := false, writable := true);
    RewrittenPageSeen(w, ResolveStep(w, s, p, copy), s, p, leaf);
    assert WorldView(w).spaces[s][p] == PageView(w, leaf, p in Pages(sp.devices));
    SetSamePage(WorldView(w), s, p);
  }

  lemma SetSamePage(e: Eager, s: SpaceId, p: Page)
    requires s in e.spaces && p in e.spaces[s]
    ensures SetPage(e, s, p, e.spaces[s][p]) == e
  {
    var pages: map<Page, EagerPage> := e.spaces[s][p := e.spaces[s][p]];
    assert pages == e.spaces[s];
    assert e.spaces[s := pages] == e.spaces;
  }

  /** Moving a page to a copy of its frame is invisible. */
  lemma CopiedSeen(w: World, sp: Space, p: Page, copy: Frame)
    requires p in sp.leaves && sp.leaves[p].cow && IndexOf(sp.owned, p) < |sp.owned| && p !in Pages(sp.devices)
    requires ContentOf(w, copy) == ContentOf(w, sp.leaves[p].frame)
    ensures SpaceView(w, Copied(sp, p, copy)) == SpaceView(w, sp)
  {
  }

  lemma CopyUnseen(w: World, w': World, s: SpaceId, p: Page, f: Frame, copy: Frame)
    requires Inv(w) && s in w.spaces && p in w.spaces[s].leaves && w.spaces[s].leaves[p].cow
    requires f == w.spaces[s].leaves[p].frame && f in w.content && CanAllocate(w, copy)
    requires IndexOf(w.spaces[s].owned, p) < |w.spaces[s].owned| && p !in Pages(w.spaces[s].devices)
    requires w'.spaces == w.spaces[s := Copied(w.spaces[s], p, copy)]
    requires w'.content == w.content[copy := w.content[f]] && w'.state == w.state[copy := Allocated]
    ensures WorldView(w') == WorldView(w)
  {
    var sp := w.spaces[s];
    FreshUnseen(w, w', copy, w.content[f]);
    assert SpaceView(w', sp) == SpaceView(w, sp) by {
      assert SpaceOk(w, sp) && SameBytes(w, w', sp);
      SpaceViewKept(w, w', sp);
    }
    CopiedSeen(w', sp, p, copy);
    OneSpaceChanges(w, w', s);
    SpaceViewIsPart(w, s);
    SetSameSpace(WorldView(w), s);
  }

  lemma SetSameSpace(e: Eager, s: SpaceId)
    requires s in e.spaces
    ensures e.(spaces := e.spaces[s := e.spaces[s]]) == e
  {
    assert e.spaces[s := e.spaces[s]] == e.spaces;
  }

  /** Resolving a write fault is invisible. */
  lemma ResolveUnseen(w: World, s: SpaceId, p: Page, copy: Option<Frame>)
    requires Inv(w) && s in w.spaces && !NoCopyLeft(w, s, p, copy)
    requires copy.Some? ==> CanAllocate(w, copy.value)
    ensures WorldView(ResolveStep(w, s, p, if copy.Some? then copy.value else 0)) == WorldView(w)
  {
    var sp := w.spaces[s];
    if p in sp.leaves && sp.leaves[p].cow {
      var f := sp.leaves[p].frame;
      if Refcount(w, f) <= 1 {
        ReclaimUnseen(w, s, p, if copy.Some? then copy.value else 0);
      } else {
        FreeIsUnused(w, copy.value);
        assert SpaceOk(w, sp);
        CowPagesAreOwned(sp, p);
        ResolveRefs(w, s, p, f, copy.value);
        CopyUnseen(w, ResolveStep(w, s, p, copy.value), s, p, f, copy.value);
      }
    }
  }

  lemma PrivateWriteSeen(w: World, s: SpaceId, p: Page, offset: nat, b: Byte)
    requires Inv(w) && s in w.spaces && p in w.spaces[s].leaves && offset < PAGE_BYTES
    requires p in Pages(w.spaces[s].owned) && w.spaces[s].leaves[p].writable && w.spaces[s].leaves[p].user
    ensures var page := SpaceView(w, w.spaces[s])[p];
      && page.Private?
      && WorldView(WriteStep(w, s, p, offset, b)) ==
         SetPage(WorldView(w), s, p, page.(content := SetByte(page.content, offset, b)))
  {
    var sp := w.spaces[s];
    var f := sp.leaves[p].frame;
    var w' := WriteStep(w, s, p, offset, b);
    assert f in Frames(sp.owned) && f in w.refs && w.refs[f] == 1 && ValidSpace(sp) by {
      assert SpaceOk(w, sp);
      LeafFrame(sp, p);
    }
    SoleWriteUnseen(w, w', s, f, SetByte(w.content[f], offset, b));
    WrittenSpaces(w, w', s);
    OneSpaceChanges(w, w', s);
    OnePageWritten(w, w', sp, p, f, offset, b);
    var page := SpaceView(w, sp)[p];
    PageSet(w, w', s, p, page.(content := SetByte(page.content, offset, b)));
  }

  lemma WrittenSpaces(w: World, w': World, s: SpaceId)
    requires s in w.spaces && w'.spaces == w.spaces
    ensures w'.spaces == w.spaces[s := w'.spaces[s]]
  {
  }

  lemma SpaceViewIsPart(w: World, s: SpaceId)
    requires s in w.spaces
    ensures WorldView(w).spaces[s] == SpaceView(w, w.spaces[s])
  {
  }

  /** Bytes changed in a frame with one reference are seen by its one user only. */
  lemma SoleWriteUnseen(w: World, w': World, s: SpaceId, f: Frame, c: Content)
    requires CountsExact(w) && s in w.spaces && f in Frames(w.spaces[s].owned) && f in w.refs && w.refs[f] == 1
    requires w'.content == w.content[f := c] && w'.state == w.state
    ensures SameDevices(w, w')
    ensures forall t {:trigger SameBytes(w, w', w.spaces[t])} ::
          t in w.spaces && t != s ==> SameBytes(w, w', w.spaces[t])
  {
    SoleUser(w, s, f);
  }

  lemma OnePageWritten(w: World, w': World, sp: Space, p: Page, f: Frame, offset: nat, b: Byte)
    requires ValidSpace(sp) && p in Pages(sp.owned) && offset < PAGE_BYTES && f == sp.leaves[p].frame && f in w.content
    requires w'.content == w.content[f := SetByte(w.content[f], offset, b)]
    ensures var page := SpaceView(w, sp)[p];
      && page.Private?
      && SpaceView(w', sp) == SpaceView(w, sp)[p := page.(content := SetByte(page.content, offset, b))]
  {
    forall q | q in sp.leaves && q != p && q !in Pages(sp.devices)
      ensures sp.leaves[q].frame != sp.leaves[p].frame
    {
      if sp.leaves[q].frame == sp.leaves[p].frame {
        OnePagePerFrame(sp, p, q);
      }
    }
  }

  lemma DeviceWriteSeen(w: World, s: SpaceId, p: Page, offset: nat, b: Byte)
    requires Inv(w) && s in w.spaces && p in w.spaces[s].leaves && offset < PAGE_BYTES
    requires p in Pages(w.spaces[s].devices) && w.spaces[s].leaves[p].writable && w.spaces[s].leaves[p].user
    ensures WorldView(WriteStep(w, s, p, offset, b)) == EagerStore(WorldView(w), s, p, offset, b)
  {
    var f := w.spaces[s].leaves[p].frame;
    var w' := WriteStep(w, s, p, offset, b);
    assert f in w.content && IsDevice(w, f) by {
      assert SpaceOk(w, w.spaces[s]);
    }
    DeviceWritten(w, w', f, SetByte(w.content[f], offset, b));
  }

  lemma DeviceWritten(w: World, w': World, f: Frame, c: Content)
    requires Inv(w) && f in w.content && IsDevice(w, f) && w' == w.(content := w.content[f := c])
    ensures WorldView(w') == WorldView(w).(devices := WorldView(w).devices[f := c])
  {
    forall t | t in w.spaces
      ensures SpaceView(w', w'.spaces[t]) == SpaceView(w, w.spaces[t])
    {
      OwnedIsReferenced(w, t);
      SpacesKept(w, w', t);
    }
    assert WorldView(w').spaces == WorldView(w).spaces;
    assert DeviceView(w') == DeviceView(w)[f := c];
  }

  lemma StoreSeen(w: World, s: SpaceId, p: Page, offset: nat, b: Byte, copy: Option<Frame>)
    requires Inv(w) && s in w.spaces && offset < PAGE_BYTES
    requires copy.Some? ==> CanAllocate(w, copy.value)
    ensures WorldView(StoreStep(w, s, p, offset, b, copy)) ==
            if NoCopyLeft(w, s, p, copy) then WorldView(w) else EagerStore(WorldView(w), s, p, offset, b)
  {
    if !NoCopyLeft(w, s, p, copy) {
      var w1 := ResolveStep(w, s, p, if copy.Some? then copy.value else 0);
      ResolveKeeps(w, s, p, copy);
      ResolveUnseen(w, s, p, copy);
      WriteSeen(w1, s, p, offset, b);
    }
  }

  lemma WriteSeen(w: World, s: SpaceId, p: Page, offset: nat, b: Byte)
    requires Inv(w) && s in w.spaces && offset < PAGE_BYTES
    requires p in w.spaces[s].leaves ==> !w.spaces[s].leaves[p].cow
    ensures WorldView(WriteStep(w, s, p, offset, b)) == EagerStore(WorldView(w), s, p, offset, b)
  {
    var sp := w.spaces[s];
    assert SpaceOk(w, sp);
    if p in sp.leaves && sp.leaves[p].user && sp.leaves[p].writable {
      if p in Pages(sp.devices) {
        DeviceWriteSeen(w, s, p, offset, b);
      } else {
        PrivateWriteSeen(w, s, p, offset, b);
        SpaceViewIsPart(w, s);
      }
    }
  }

  // ---- the theorem ---------------------------------------------------------------------

  lemma KernelUnseen(w: World, step: Step)
    requires Inv(w) && Enabled(w, step) && (step.KernelAlloc? || step.KernelGet? || step.KernelFree?)
    ensures WorldView(Next(w, step)) == WorldView(w)
  {
    var w' := Next(w, step);
    if step.KernelAlloc? {
      FreshUnseen(w, w', step.f, step.c);
    } else if step.KernelFree? {
      ExitDevices(w, w', {step.f});
    }
    NoSpaceChanges(w, w');
  }

  /** A store that needs a copy of its page when no frame is left: the process is killed
      instead. */
  predicate Starved(w: World, step: Step) {
    step.Store? && step.s in w.spaces && NoCopyLeft(w, step.s, step.p, step.copy)
  }

  /** Every step of the copy-on-write kernel is, to the processes, a step of the eager one,
      unless it is a starved store, which they do not see at all. */
  ghost predicate Seen(w: World, step: Step, w': World) {
    if Starved(w, step) then WorldView(w') == WorldView(w) else EagerNext(WorldView(w), step, WorldView(w'))
  }

  lemma StepSeen(w: World, step: Step)
    requires Inv(w) && Enabled(w, step)
    ensures Seen(w, step, Next(w, step))
  {
    match step
    case New(s) => NewSeen(w, s);
    case MapOwned(s, p, flags, f) => MapOwnedSeen(w, s, p, flags, f);
    case MapDevice(s, p, flags, cache, f) => MapDeviceSeen(w, s, p, flags, cache, f);
    case Protect(s, p, flags) =>
      if p in w.spaces[s].leaves {
        ProtectSeen(w, s, p, flags);
      }
    case Unmap(s, p) => UnmapSeen(w, s, p);
    case Fork(s, child) => ForkSeen(w, s, child);
    case ForkFailed(s, n) => ForkFailedSeen(w, s, n);
    case ForkCutOff(s, n) => ForkCutOffSeen(w, s, n);
    case Store(s, p, offset, b, copy) => StoreSeen(w, s, p, offset, b, copy);
    case Exit(s) => ExitSeen(w, s);
    case KernelAlloc(_, _) => KernelUnseen(w, step);
    case KernelGet(_) => KernelUnseen(w, step);
    case KernelFree(_) => KernelUnseen(w, step);
  }

  /** The worlds a step can lead to: one, if it can be taken. */
  ghost function After(w: World, step: Step): iset<World> {
    iset w' | Leads(w, step, w')
  }

  ghost predicate Leads(w: World, step: Step, w': World) {
    Enabled(w, step) && w' == Next(w, step)
  }

  lemma Taken(w: World, step: Step, w': World)
    ensures After(w, step) == Only(w') <==> Leads(w, step, w')
  {
    if After(w, step) == Only(w') {
      assert w' in Only(w');
      assert w' in After(w, step);
    }
    if Leads(w, step, w') {
      assert forall x :: x in After(w, step) <==> x in Only(w');
    }
  }

  /** `ws` is a run of the copy-on-write kernel performing `steps`. */
  ghost predicate Run(ws: seq<World>, steps: seq<Step>) {
    && |ws| == |steps| + 1
    && forall i :: 0 <= i < |steps| ==> After(ws[i], steps[i]) == Only(ws[i + 1])
  }

  /** Boot: no address space, no reference, nothing allocated. */
  ghost predicate Boot(w: World) {
    && w.spaces == map[] && w.held == multiset{} && w.lost == multiset{}
    && w.refs.Keys == w.state.Keys && w.refs.Keys <= w.content.Keys
    && (forall f :: f in w.refs ==> w.refs[f] == 0 && w.state[f] != Allocated)
  }

  lemma BootInv(w: World)
    requires Boot(w)
    ensures Inv(w)
  {
    forall f | f in w.refs
      ensures Users(w, f) == {}
    {
    }
  }

  /** Over any run: reference counts are exact, a frame is allocated exactly while one is
      held, and the processes see exactly a run of the eager-copy kernel. */
  lemma {:induction false} RunsRefineEagerFork(ws: seq<World>, steps: seq<Step>, i: nat)
    requires Run(ws, steps) && Boot(ws[0]) && i <= |steps|
    ensures Inv(ws[i])
    ensures i < |steps| ==> Seen(ws[i], steps[i], ws[i + 1])
  {
    if i == 0 {
      BootInv(ws[0]);
    } else {
      RunsRefineEagerFork(ws, steps, i - 1);
      AfterKeeps(ws[i - 1], steps[i - 1], ws[i]);
    }
    if i < |steps| {
      AfterKeeps(ws[i], steps[i], ws[i + 1]);
    }
  }

  lemma AfterKeeps(w: World, step: Step, w': World)
    requires Inv(w) && After(w, step) == Only(w')
    ensures Inv(w') && Seen(w, step, w')
  {
    Taken(w, step, w');
    StepKeepsInv(w, step);
    StepSeen(w, step);
  }

  // ---- lost references ------------------------------------------------------------------------------------

  /** A fork that is cut off drops the child before giving it its list: every page ahead of the first
      saturated count loses a reference, so none is lost exactly when there is no such page. */
  lemma CutOffForkLeaks(w: World, s: SpaceId, n: nat)
    requires Inv(w) && Enabled(w, ForkCutOff(s, n))
    ensures var owned := w.spaces[s].owned;
      && Next(w, ForkCutOff(s, n)).lost == w.lost + multiset(Frames(owned[..Sharing(w, owned)]))
      && (Next(w, ForkCutOff(s, n)).lost == w.lost <==> owned == [] || Saturated(w, owned[0].frame))
  {
    var owned := w.spaces[s].owned;
    SharingIs(w, owned, n);
    if n > 0 {
      Listed(owned[..n], owned[..n][0]);
      assert Next(w, ForkCutOff(s, n)).lost[owned[0].frame] == w.lost[owned[0].frame] + 1;
    }
  }

  /** From any boot state with a free frame and a device: a process with one page and one device page
      forks, and the list of devices does not fit. The page's frame has lost a reference. */
  lemma ForkThatLeaks(w: World, f: Frame, d: Frame, flags: Flags) returns (ws: seq<World>, steps: seq<Step>)
    requires Boot(w) && CanAllocate(w, f) && d in w.content && IsDevice(w, d)
    ensures Run(ws, steps) && ws[0] == w && ws[|steps|].lost == multiset{f}
  {
    var a, b, c, e := New(0), MapOwned(0, 0, flags, f), MapDevice(0, 1, flags, 0, d), ForkCutOff(0, 1);
    var w1, w2, w3 := PageAndDevice(w, f, d, flags);
    LosesItsPage(w3, Mapping(0, f));
    var w4 := Next(w3, e);
    Taken(w3, e, w4);
    ws, steps := [w, w1, w2, w3, w4], [a, b, c, e];
  }

  lemma PageAndDevice(w: World, f: Frame, d: Frame, flags: Flags) returns (w1: World, w2: World, w3: World)
    requires Boot(w) && CanAllocate(w, f) && d in w.content && IsDevice(w, d)
    ensures After(w, New(0)) == Only(w1) && After(w1, MapOwned(0, 0, flags, f)) == Only(w2)
    ensures After(w2, MapDevice(0, 1, flags, 0, d)) == Only(w3) && w3.lost == multiset{}
    ensures 0 in w3.spaces && w3.spaces[0].owned == [Mapping(0, f)] && w3.spaces[0].devices == [Mapping(1, d)]
    ensures f in w3.refs && w3.refs[f] == 1
  {
    w1 := Next(w, New(0));
    Taken(w, New(0), w1);
    w2 := Next(w1, MapOwned(0, 0, flags, f));
    Taken(w1, MapOwned(0, 0, flags, f), w2);
    w3 := Next(w2, MapDevice(0, 1, flags, 0, d));
    Taken(w2, MapDevice(0, 1, flags, 0, d), w3);
  }

  lemma LosesItsPage(w: World, m: Mapping)
    requires 0 in w.spaces && w.spaces[0].owned == [m] && w.spaces[0].devices != [] && w.lost == multiset{}
    requires m.frame in w.refs && w.refs[m.frame] == 1
    ensures Enabled(w, ForkCutOff(0, 1)) && Next(w, ForkCutOff(0, 1)).lost == multiset{m.frame}
  {
    assert [m][..1] == [m];
    assert Frames([m]) == {m.frame};
  }

  predicate SameHolders(w: World, w': World) {
    w'.held == w.held && w'.lost == w.lost
  }

  lemma UnmapHolders(w: World, s: SpaceId, p: Page)
    requires s in w.spaces
    ensures SameHolders(w, UnmapStep(w, s, p))
  {
  }

  lemma StoreHolders(w: World, s: SpaceId, p: Page, offset: nat, b: Byte, copy: Option<Frame>)
    requires s in w.spaces && offset < PAGE_BYTES
    ensures SameHolders(w, StoreStep(w, s, p, offset, b, copy))
  {
    var resolved := ResolveStep(w, s, p, if copy.Some? then copy.value else 0);
    assert SameHolders(w, resolved);
  }

  lemma UserHolders(w: World, step: Step)
    requires Enabled(w, step)
    requires !step.KernelAlloc? && !step.KernelGet? && !step.KernelFree? && !step.ForkCutOff?
    ensures SameHolders(w, Next(w, step))
  {
    match step
    case Unmap(s, p) => UnmapHolders(w, s, p);
    case Store(s, p, offset, b, copy) => StoreHolders(w, s, p, offset, b, copy);
    case _ =>
  }

  /** Lost references are among those no space holds, only that step loses any, and none comes back. */
  lemma StepLoses(w: World, step: Step)
    requires Enabled(w, step) && w.lost <= w.held
    ensures Next(w, step).lost <= Next(w, step).held && w.lost <= Next(w, step).lost
    ensures !step.ForkCutOff? ==> Next(w, step).lost == w.lost
  {
    if step.KernelAlloc? || step.KernelGet? || step.KernelFree? {
      KernelLoses(w, step);
    } else if !step.ForkCutOff? {
      UserHolders(w, step);
    }
  }

  lemma AfterLoses(w: World, step: Step, w': World)
    requires After(w, step) == Only(w') && w.lost <= w.held
    ensures w'.lost <= w'.held && w.lost <= w'.lost && (!step.ForkCutOff? ==> w'.lost == w.lost)
  {
    Taken(w, step, w');
    StepLoses(w, step);
  }

  lemma KernelLoses(w: World, step: Step)
    requires Enabled(w, step) && w.lost <= w.held && (step.KernelAlloc? || step.KernelGet? || step.KernelFree?)
    ensures Next(w, step).lost == w.lost <= Next(w, step).held
  {
  }

  /** Allocated, with a reference that no space accounts for. */
  ghost predicate Stranded(w: World, f: Frame) {
    f in w.refs && f in w.state && w.state[f] == Allocated && w.refs[f] > |Users(w, f)|
  }

  lemma LostIsStranded(w: World, f: Frame)
    requires Inv(w) && w.lost <= w.held && f in w.lost
    ensures Stranded(w, f)
  {
    assert w.held[f] > 0;
  }

  /** So over any run a frame with a lost reference stays allocated for good, whoever uses it, and
      without such a fork every reference has a holder. */
  lemma {:induction false} LostForGood(ws: seq<World>, steps: seq<Step>, i: nat, j: nat, f: Frame)
    requires Run(ws, steps) && Boot(ws[0]) && i <= j <= |steps|
    ensures f in ws[i].lost ==> Stranded(ws[j], f)
    ensures (forall k :: 0 <= k < j ==> !steps[k].ForkCutOff?) ==> ws[j].lost == multiset{}
  {
    RunsRefineEagerFork(ws, steps, j);
    LostGrows(ws, steps, i, j);
    if f in ws[i].lost {
      LostIsStranded(ws[j], f);
    }
    if forall k :: 0 <= k < j ==> !steps[k].ForkCutOff? {
      NothingLost(ws, steps, j);
    }
  }

  lemma {:induction false} LostGrows(ws: seq<World>, steps: seq<Step>, i: nat, j: nat)
    requires Run(ws, steps) && Boot(ws[0]) && i <= j <= |steps|
    ensures ws[i].lost <= ws[j].lost <= ws[j].held
    decreases j
  {
    if j > 0 {
      LostGrows(ws, steps, if i < j then i else j - 1, j - 1);
      AfterLoses(ws[j - 1], steps[j - 1], ws[j]);
    }
  }

  lemma {:induction false} NothingLost(ws: seq<World>, steps: seq<Step>, j: nat)
    requires Run(ws, steps) && Boot(ws[0]) && j <= |steps| && forall k :: 0 <= k < j ==> !steps[k].ForkCutOff?
    ensures ws[j].lost == multiset{}
  {
    if j > 0 {
      NothingLost(ws, steps, j - 1);
      LostGrows(ws, steps, j - 1, j - 1);
      AfterLoses(ws[j - 1], steps[j - 1], ws[j]);
    }
  }
}
