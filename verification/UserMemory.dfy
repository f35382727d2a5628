/** Applying `brk`, `mmap`, `munmap` and `mprotect` to a process's page tables. The memory
    map says which pages change; the methods here change them one page at a time, undo on
    failure, and are proved to keep the page tables and the memory map in agreement.
  */
module UserMemory {
  import opened Bytes
  import opened Outcomes
  import opened PageLeaves
  import opened MemoryMaps
  import opened AddressSpaces
  import PageTables

  function DeviceOf(kind: Kind): Option<nat> {
    if kind.Device? then Some(kind.physical) else None
  }

  /** `page_flags`. */
  function PageFlags(p: Protection): Flags {
    if p.execute then Flags(true, false, true)
    else if p.write then Flags(true, true, false)
    else Flags(true, false, false)
  }

  /** What a process then sees of a page. */
  function Granted(p: Protection, device: Option<nat>): UserLeaf {
    UserLeaf(p.read, p.write, p.execute, device)
  }

  lemma SetTwice(l: Seen, page: nat, a: UserLeaf, b: UserLeaf)
    ensures l[page := a][page := b] == l[page := b]
  {
  }

  /** What `protect_inaccessible` sets. */
  const INACCESSIBLE := Flags(false, false, false)

  /** The leaf a page must have for what the memory map says about it. */
  function LeafFor(b: Backing): UserLeaf {
    UserLeaf(b.protection.read, b.protection.write, b.protection.execute, DeviceOf(b.kind))
  }

  /** One page: present exactly when a region covers it, with matching permission. */
  ghost predicate PageAgrees(rs: seq<Region>, leaves: Seen, a: nat) {
    if Aligned(a) && At(rs, a).Some? then a in leaves && leaves[a] == LeafFor(At(rs, a).value)
    else a !in leaves
  }

  /** Page tables and memory map agree on every page. */
  ghost predicate Agree(rs: seq<Region>, leaves: Seen) {
    forall a: nat :: PageAgrees(rs, leaves, a)
  }

  // ---- page ranges -----------------------------------------------------------------------

  predicate PageIn(a: nat, start: nat, end: nat) {
    Aligned(a) && start <= a < end
  }

  /** `l'` is `l` without the pages of `start..end`. */
  ghost predicate Cleared(l: Seen, l': Seen, start: nat, end: nat) {
    forall a: nat ::
      && (a in l' <==> a in l && !PageIn(a, start, end))
      && (a in l' ==> l'[a] == l[a])
  }

  ghost predicate ClearedSpans(l: Seen, l': Seen, spans: seq<Span>) {
    forall a: nat ::
      && (a in l' <==> a in l && !(Aligned(a) && InSpans(spans, a)))
      && (a in l' ==> l'[a] == l[a])
  }

  ghost predicate AllClear(l: Seen, start: nat, end: nat) {
    forall a: nat :: PageIn(a, start, end) ==> a !in l
  }

  /** `l'` is `l` with the pages of `start..end` set as `leafAt` says. */
  ghost predicate Filled(l: Seen, l': Seen, start: nat, end: nat, r: Region)
    requires r.start <= start
  {
    forall a: nat ::
      && (a in l' <==> a in l || PageIn(a, start, end))
      && (a in l' ==> l'[a] == if PageIn(a, start, end) then LeafFor(BackingAt(r, a)) else l[a])
  }

  lemma NextPage(a: nat, b: nat)
    requires Aligned(a) && Aligned(b) && a < b
    ensures a + PAGE <= b && Aligned(a + PAGE)
  {
  }

  lemma OnlyPage(a: nat, x: nat)
    requires Aligned(a) && PageIn(x, a, a + PAGE)
    ensures x == a
  {
  }

  /** The pages up to `page` and `page` itself make the pages up to the next one. */
  lemma PagesGrow(start: nat, page: nat)
    requires Aligned(start) && Aligned(page) && start <= page
    ensures forall x: nat :: PageIn(x, start, page + PAGE) <==> PageIn(x, start, page) || x == page
  {
    forall x: nat
      ensures PageIn(x, start, page + PAGE) <==> PageIn(x, start, page) || x == page
    {
      if PageIn(x, start, page + PAGE) && page <= x {
        OnlyPage(page, x);
      }
    }
  }

  lemma ClearAhead(l: Seen, mid: Seen, start: nat, page: nat, end: nat, r: Region)
    requires Aligned(page) && r.start <= start <= page < end && AllClear(l, start, end)
    requires Filled(l, mid, start, page, r)
    ensures page !in mid
  {
    assert PageIn(page, start, end);
  }

  lemma FillStep(l: Seen, mid: Seen, l': Seen, start: nat, page: nat, r: Region)
    requires Aligned(start) && Aligned(page) && r.start <= start <= page && Filled(l, mid, start, page, r)
    requires l' == mid[page := Granted(r.protection, DeviceOf(KindAt(r, page)))]
    ensures Filled(l, l', start, page + PAGE, r)
  {
    PagesGrow(start, page);
  }

  class OwnedSpace {
    var memory: MemoryMap
    const space: AddressSpace

    ghost predicate Valid()
      reads this, memory, space, space.tables
    {
      memory.Valid() && space.Valid() && Agree(memory.regions, space.seen)
    }

    /** A process's space and memory map, as `exec` and `fork` register them. */
    constructor (memory: MemoryMap, space: AddressSpace)
      requires memory.Valid() && space.Valid() && Agree(memory.regions, space.seen)
      ensures Valid() && this.memory == memory && this.space == space
    {
      this.memory, this.space := memory, space;
    }

    // ---- the address space -----------------------------------------------------------------

    /** `unmap_span`: pages that are not mapped are skipped. */
    method UnmapSpan(start: nat, end: nat)
      requires space.Valid() && Aligned(start) && Aligned(end) && start <= end
      modifies space, space.tables
      ensures space.Valid() && space.Frames() == old(space.Frames()) && old(space.tables.pool) <= space.tables.pool
      ensures Cleared(old(space.seen), space.seen, start, end)
    {
      var page := start;
      while page < end
        invariant start <= page <= end && Aligned(page)
        invariant space.Valid() && space.Frames() == old(space.Frames()) && old(space.tables.pool) <= space.tables.pool
        invariant Cleared(old(space.seen), space.seen, start, page)
      {
        NextPage(page, end);
        PagesGrow(start, page);
        var _ := space.Unmap(page);
        page := page + PAGE;
      }
    }

    method UnmapSpans(spans: seq<Span>)
      requires space.Valid() && AlignedSpans(spans)
      modifies space, space.tables
      ensures space.Valid() && space.Frames() == old(space.Frames()) && old(space.tables.pool) <= space.tables.pool
      ensures ClearedSpans(old(space.seen), space.seen, spans)
    {
      var i := 0;
      NoSpans(spans);
      while i < |spans|
        invariant 0 <= i <= |spans|
        invariant space.Valid() && space.Frames() == old(space.Frames()) && old(space.tables.pool) <= space.tables.pool
        invariant ClearedSpans(old(space.seen), space.seen, spans[..i])
      {
        ghost var mid := space.seen;
        UnmapSpan(spans[i].start, spans[i].end);
        ClearedTwice(old(space.seen), mid, space.seen, spans, i);
        i := i + 1;
      }
      assert spans[..i] == spans;
    }

    /** Map one page (`map_owned` of a new frame, or `map_device`), then make it inaccessible if
        the protection is empty. Fails when the frames do not suffice or the page is taken. */
    method MapPage(page: nat, protection: Protection, device: Option<nat>) returns (ok: bool)
      requires space.Valid() && Aligned(page) && page < USER_END && Sane(protection)
      modifies space, space.tables
      ensures space.Valid() && space.Frames() == old(space.Frames())
      ensures ok <==> page !in old(space.seen) && old(space.Needs(page, device.Some?)) <= |old(space.tables.pool)|
      ensures |space.tables.pool| == |old(space.tables.pool)| - if ok then old(space.Needs(page, device.Some?)) else 0
      ensures ok ==> space.seen == old(space.seen)[page := Granted(protection, device)]
      ensures !ok ==> space.seen == old(space.seen)
    {
      ok := MapVisible(page, PageFlags(protection), device);
      if ok && protection == NONE {
        Hide(old(space.seen), page, UserLeaf(true, false, false, device));
      }
    }

    /** ... before its protection is looked at. */
    method MapVisible(page: nat, flags: Flags, device: Option<nat>) returns (ok: bool)
      requires space.Valid() && Aligned(page) && page < USER_END
      modifies space, space.tables
      ensures space.Valid() && space.Frames() == old(space.Frames())
      ensures ok <==> page !in old(space.seen) && old(space.Needs(page, device.Some?)) <= |old(space.tables.pool)|
      ensures |space.tables.pool| == |old(space.tables.pool)| - if ok then old(space.Needs(page, device.Some?)) else 0
      ensures space.seen ==
              if ok then old(space.seen)[page := UserLeaf(flags.user, flags.writable, flags.execute, device)]
              else old(space.seen)
    {
      match device
      case None => ok := space.MapOwned(page, flags);
      case Some(physical) => ok := space.MapDevice(page, physical, flags);
    }

    method Hide(ghost before: Seen, page: nat, ghost leaf: UserLeaf)
      requires space.Valid() && Aligned(page) && space.seen == before[page := leaf]
      modifies space, space.tables
      ensures space.Valid() && space.Frames() == old(space.Frames()) && |space.tables.pool| == |old(space.tables.pool)|
      ensures space.seen == before[page := Granted(NONE, leaf.device)]
    {
      var _ := space.SetFlags(page, INACCESSIBLE);
      SetTwice(before, page, leaf, Granted(NONE, leaf.device));
    }

    /** `map_span` and the mapping loop of `mmap_device`: all pages, or none. Four frames a page
        always suffice: its own and at most three tables. */
    method MapSpan(r: Region, start: nat, end: nat) returns (ok: bool)
      requires space.Valid() && Aligned(start) && Aligned(end) && r.start <= start <= end <= USER_END
      requires Sane(r.protection)
      requires AllClear(space.seen, start, end)
      modifies space, space.tables
      ensures space.Valid() && space.Frames() == old(space.Frames())
      ensures ok ==> Filled(old(space.seen), space.seen, start, end, r)
      ensures !ok ==> space.seen == old(space.seen)
      ensures Suffices(old(space.tables.pool), start, end) ==> ok
    {
      var page := start;
      while page < end
        invariant start <= page <= end && Aligned(page)
        invariant space.Valid() && space.Frames() == old(space.Frames())
        invariant Suffices(old(space.tables.pool), start, end) ==> Suffices(space.tables.pool, page, end)
        invariant Filled(old(space.seen), space.seen, start, page, r)
      {
        NextPage(page, end);
        assert page !in space.seen by {
          ClearAhead(old(space.seen), space.seen, start, page, end, r);
        }
        ghost var mid := space.seen;
        ok := MapNext(r, page, end);
        if !ok {
          UnmapSpan(start, page + PAGE);
          Undone(old(space.seen), mid, space.seen, start, page, end, r);
          return;
        }
        FillStep(old(space.seen), mid, space.seen, start, page, r);
        page := page + PAGE;
      }
      ok := true;
    }

    /** One page of the span. */
    method MapNext(r: Region, page: nat, ghost end: nat) returns (ok: bool)
      requires space.Valid() && Aligned(page) && r.start <= page < end <= USER_END && Sane(r.protection)
      requires page !in space.seen
      modifies space, space.tables
      ensures space.Valid() && space.Frames() == old(space.Frames())
      ensures space.seen ==
              if ok then old(space.seen)[page := Granted(r.protection, DeviceOf(KindAt(r, page)))] else old(space.seen)
      ensures Suffices(old(space.tables.pool), page, end) ==> ok && Suffices(space.tables.pool, page + PAGE, end)
    {
      var device := DeviceOf(KindAt(r, page));
      FewFrames(space, page, device.Some?);
      ok := MapPage(page, r.protection, device);
      if Suffices(old(space.tables.pool), page, end) {
        SufficesNext(|old(space.tables.pool)|, |space.tables.pool|, page, end);
      }
    }

    // ---- the system calls ------------------------------------------------------------------

    /** The page-table half of `mmap` and `mmap_device`, after the memory map placed the
        region: unmap what it replaced, map the new pages, and on failure put back the saved
        map with a hole where the region would have been. */
    method Apply(ghost before: seq<Region>, saved: MemoryMap, change: MmapChange, kind: Kind) returns (ok: bool)
      requires space.Valid() && memory.Valid() && saved.Valid() && saved != memory && saved.regions == before
      requires Agree(before, space.seen) && Applicable(before, memory.regions, change, kind)
      modifies this, saved, space, space.tables
      ensures Valid() && space.Frames() == old(space.Frames())
      ensures ok ==> memory == old(memory)
      ensures !ok ==> memory == saved && GoneFrom(before, memory.regions, change.added.start, change.added.end)
      ensures Suffices(old(space.tables.pool), change.added.start, change.added.end) ==> ok
    {
      var start, end := change.added.start, change.added.end;
      ghost var l := space.seen;
      UnmapSpans(change.replaced);
      GapExists(before, start, end);
      ghost var gap := Without(before, start, end);
      AgreeAfterRemoval(before, gap, l, space.seen, change.replaced, start, end);
      var region := Region(start, end, change.added.protection, kind);
      ghost var cleared := space.seen;
      if Suffices(old(space.tables.pool), start, end) {
        SufficesMore(old(space.tables.pool), space.tables.pool, start, end);
      }
      ok := MapSpan(region, start, end);
      if ok {
        AgreeAfterFill(before, gap, memory.regions, cleared, space.seen, region);
      } else {
        Restore(before, saved, start, end);
        AgreeTransfers(gap, memory.regions, space.seen, start, end, before);
      }
    }

    /** The saved map, with a hole where the region would have been. */
    method Restore(ghost before: seq<Region>, saved: MemoryMap, start: nat, end: nat)
      requires saved.Valid() && saved.regions == before && Aligned(start) && Aligned(end) && start < end
      modifies this`memory, saved
      ensures memory == saved && memory.Valid() && GoneFrom(before, memory.regions, start, end)
    {
      memory := saved;
      var _ := memory.Remove(start, end);
      HeapAfterRemoval(before, memory.regions, start, end, memory.brkStart, memory.brk);
    }

    /** `mmap`. The saved map is a copy; a failed `MAP_FIXED` leaves a hole. */
    method Mmap(hint: nat, length: nat, protection: Protection, fixed: bool) returns (r: Result<nat>)
      requires Valid() && Sane(protection)
      modifies this, memory, space, space.tables
      ensures Valid() && space.Frames() == old(space.Frames())
      ensures r.Ok? ==> memory == old(memory) && PageUp(length).Some?
      ensures r.Ok? ==> PlacedAt(old(memory.regions), memory.regions, r.value, length, protection, Anonymous)
      ensures r.Ok? ==> AddressFor(old(memory.regions), old(memory.brk), old(memory.mmapTop), hint, length, fixed,
                                   r.value)
      ensures Enough(old(space.tables.pool), length) ==>
        (r.Ok? <==>
           0 < length && HasPlace(old(memory.regions), old(memory.brk), old(memory.mmapTop), hint, length, fixed))
      ensures r == Err(EINVAL) <==> BadCall(hint, length, fixed)
      ensures r.Err? && !fixed ==> SameMeaning(old(memory.regions), memory.regions)
      ensures r.Err? && fixed ==> SameMeaning(old(memory.regions), memory.regions) ||
                                  HoleAt(old(memory.regions), memory.regions, hint, length)
      ensures r.Err? && Enough(old(space.tables.pool), length) ==> memory.regions == old(memory.regions)
      ensures r.Ok? ==> AccessGiven(space.seen, r.value, length, protection, None)
    {
      r := MapRegion(hint, length, protection, fixed, Anonymous);
      if r.Ok? {
        PlacedSeen(old(memory.regions), memory.regions, space.seen, r.value, length, protection, Anonymous);
      }
    }

    /** `mmap_device`. */
    method MmapDevice(hint: nat, length: nat, protection: Protection, physical: nat, fixed: bool)
      returns (r: Result<nat>)
      requires Valid() && Sane(protection)
      modifies this, memory, space, space.tables
      ensures Valid() && space.Frames() == old(space.Frames())
      ensures !Aligned(physical) || protection.execute ==> r == Err(EINVAL)
      ensures r.Ok? ==> memory == old(memory) && PageUp(length).Some?
      ensures r.Ok? ==> PlacedAt(old(memory.regions), memory.regions, r.value, length, protection, Device(physical))
      ensures r.Ok? ==> AddressFor(old(memory.regions), old(memory.brk), old(memory.mmapTop), hint, length, fixed,
                                   r.value)
      ensures Enough(old(space.tables.pool), length) ==>
        (r.Ok? <==> Aligned(physical) && !protection.execute && 0 < length &&
                    HasPlace(old(memory.regions), old(memory.brk), old(memory.mmapTop), hint, length, fixed))
      ensures Aligned(physical) && !protection.execute ==> (r == Err(EINVAL) <==> BadCall(hint, length, fixed))
      ensures r.Ok? ==> AccessGiven(space.seen, r.value, length, protection, Some(physical))
      ensures r.Err? && !fixed ==> SameMeaning(old(memory.regions), memory.regions)
      ensures r.Err? && fixed ==> SameMeaning(old(memory.regions), memory.regions) ||
                                  HoleAt(old(memory.regions), memory.regions, hint, length)
      ensures r.Err? && Enough(old(space.tables.pool), length) ==> memory.regions == old(memory.regions)
    {
      if !Aligned(physical) || protection.execute {
        return Err(EINVAL);
      }
      r := MapRegion(hint, length, protection, fixed, Device(physical));
      if r.Ok? {
        PlacedSeen(old(memory.regions), memory.regions, space.seen, r.value, length, protection, Device(physical));
      }
    }

    method MapRegion(hint: nat, length: nat, protection: Protection, fixed: bool, kind: Kind) returns (r: Result<nat>)
      requires Valid() && Sane(protection) && !kind.Heap?
      modifies this, memory, space, space.tables
      ensures Valid() && space.Frames() == old(space.Frames())
      ensures r.Ok? ==> memory == old(memory) && PageUp(length).Some?
      ensures r.Ok? ==> PlacedAt(old(memory.regions), memory.regions, r.value, length, protection, kind)
      ensures r.Ok? ==> AddressFor(old(memory.regions), old(memory.brk), old(memory.mmapTop), hint, length, fixed,
                                   r.value)
      ensures Enough(old(space.tables.pool), length) ==>
        (r.Ok? <==>
           0 < length && HasPlace(old(memory.regions), old(memory.brk), old(memory.mmapTop), hint, length, fixed))
      ensures r == Err(EINVAL) <==> BadCall(hint, length, fixed)
      ensures r.Err? && !fixed ==> SameMeaning(old(memory.regions), memory.regions)
      ensures r.Err? && fixed ==> SameMeaning(old(memory.regions), memory.regions) ||
                                  HoleAt(old(memory.regions), memory.regions, hint, length)
      ensures r.Err? && Enough(old(space.tables.pool), length) ==> memory.regions == old(memory.regions)
    {
      var saved, placed := Propose(hint, length, protection, fixed, kind);
      if placed.Err? {
        return Err(placed.error);
      }
      r := Settle(old(memory.regions), saved, placed.value, length, protection, fixed, kind);
    }

    /** The first half of a mapping call: the map is saved and the placement made in it. */
    method Propose(hint: nat, length: nat, protection: Protection, fixed: bool, kind: Kind)
      returns (saved: MemoryMap, placed: Result<MmapChange>)
      requires memory.Valid() && Sane(protection) && !kind.Heap?
      modifies memory`regions
      ensures fresh(saved) && saved.Valid() && saved.regions == old(memory.regions) && memory.Valid()
      ensures placed.Err? ==> memory.regions == old(memory.regions)
      ensures placed.Ok? ==> PageUp(length).Some?
      ensures placed.Ok? <==>
              0 < length && HasPlace(old(memory.regions), memory.brk, memory.mmapTop, hint, length, fixed)
      ensures placed == Err(EINVAL) <==> BadCall(hint, length, fixed)
      ensures placed.Ok? ==> AddressFor(old(memory.regions), memory.brk, memory.mmapTop, hint, length, fixed,
                                        placed.value.address)
      ensures placed.Ok? ==> Proposal(old(memory.regions), memory.regions, placed.value, PageUp(length).value,
                                      protection, fixed, kind)
    {
      saved := new MemoryMap(memory.regions, memory.brkStart, memory.brk, memory.mmapTop);
      placed := memory.Place(hint, length, protection, fixed, kind);
      if placed.Ok? {
        PlacementApplies(memory, placed.value, hint, PageUp(length).value, protection, fixed, kind,
                         old(memory.regions), memory.regions);
      }
    }

    /** The second half of a mapping call: the page tables follow the placement, or it is undone. */
    method Settle(ghost before: seq<Region>, saved: MemoryMap, change: MmapChange, ghost length: nat,
                  ghost protection: Protection, ghost fixed: bool, kind: Kind) returns (r: Result<nat>)
      requires space.Valid() && memory.Valid() && saved.Valid() && saved != memory && saved.regions == before
      requires PageUp(length).Some? && Agree(before, space.seen)
      requires Proposal(before, memory.regions, change, PageUp(length).value, protection, fixed, kind)
      modifies this, saved, space, space.tables
      ensures Valid() && space.Frames() == old(space.Frames())
      ensures r.Ok? ==> memory == old(memory) && r.value == change.address
      ensures r.Err? ==> r.error == ENOMEM && HoleAt(before, memory.regions, change.address, length)
      ensures r.Ok? ==> PlacedAt(before, memory.regions, r.value, length, protection, kind)
      ensures r.Err? && !fixed ==> SameMeaning(before, memory.regions)
      ensures Enough(old(space.tables.pool), length) ==> r.Ok?
    {
      ghost var size := PageUp(length).value;
      if Enough(old(space.tables.pool), length) {
        EnoughSuffices(old(space.tables.pool), change.address, length);
      }
      ProposalPlaces(before, memory.regions, change, length, protection, fixed, kind);
      var ok := Apply(before, saved, change, kind);
      if !ok && !fixed {
        GoneFromFree(before, memory.regions, change.address, size);
      }
      r := if ok then Ok(change.address) else Err(ENOMEM);
    }

    /** `munmap`. */
    method Munmap(start: nat, length: nat) returns (r: Result<()>)
      requires Valid()
      modifies memory, space, space.tables
      ensures Valid() && space.Frames() == old(space.Frames())
      ensures r.Ok? <==> Aligned(start) && 0 < length && PageUp(length).Some? && start + PageUp(length).value <= U64_MAX
      ensures r.Err? ==> r == Err(EINVAL) && space.seen == old(space.seen) && memory.regions == old(memory.regions)
      ensures r.Ok? ==>
            PageUp(length).Some? && GoneFrom(old(memory.regions), memory.regions, start, start + PageUp(length).value)
    {
      var removed := memory.Munmap(start, length);
      if removed.Err? {
        return Err(removed.error);
      }
      ghost var l := space.seen;
      UnmapSpans(removed.value);
      AgreeAfterRemoval(old(memory.regions), memory.regions, l, space.seen, removed.value, start,
          start + PageUp(length).value);
      r := Ok(());
    }

    /** `protect_span`: stops at a page that is not mapped. */
    method ProtectSpan(start: nat, end: nat, protection: Protection) returns (ok: bool)
      requires space.Valid() && Aligned(start) && Aligned(end) && start <= end && Sane(protection)
      modifies space, space.tables
      ensures space.Valid() && space.Frames() == old(space.Frames())
      ensures ok <==> forall a: nat :: PageIn(a, start, end) ==> a in old(space.seen)
      ensures ok ==> Recoloured(old(space.seen), space.seen, start, end, protection)
    {
      var page := start;
      while page < end
        invariant start <= page <= end && Aligned(page)
        invariant space.Valid() && space.Frames() == old(space.Frames())
        invariant forall a: nat :: PageIn(a, start, page) ==> a in old(space.seen)
        invariant Recoloured(old(space.seen), space.seen, start, page, protection)
      {
        NextPage(page, end);
        PagesGrow(start, page);
        ghost var mid := space.seen;
        ok := space.SetFlags(page, if protection == NONE then INACCESSIBLE else PageFlags(protection));
        if !ok {
          assert PageIn(page, start, end);
          return;
        }
        RecolourStep(old(space.seen), mid, space.seen, start, page, protection);
        page := page + PAGE;
      }
      ok := true;
    }

    method ProtectSpans(spans: seq<Span>, protection: Protection) returns (ok: bool)
      requires space.Valid() && AlignedSpans(spans) && Sane(protection)
      requires forall i :: 0 <= i < |spans| ==> spans[i].protection == protection
      modifies space, space.tables
      ensures space.Valid() && space.Frames() == old(space.Frames())
      ensures AllPresent(old(space.seen), spans) ==> ok
      ensures ok ==> RecolouredSpans(old(space.seen), space.seen, spans, protection)
    {
      var i := 0;
      UnrecolouredSpans(space.seen, spans, protection);
      while i < |spans|
        invariant 0 <= i <= |spans|
        invariant space.Valid() && space.Frames() == old(space.Frames())
        invariant RecolouredSpans(old(space.seen), space.seen, spans[..i], protection)
      {
        ghost var mid := space.seen;
        ok := ProtectSpan(spans[i].start, spans[i].end, spans[i].protection);
        if !ok {
          MissingSpan(old(space.seen), mid, spans, i, protection);
          return;
        }
        RecolourTwice(old(space.seen), mid, space.seen, spans, i, protection);
        i := i + 1;
      }
      assert spans[..i] == spans;
      ok := true;
    }

    /** `mprotect`. The pages were mapped, so re-protecting them never fails half way. */
    method Mprotect(start: nat, length: nat, protection: Protection) returns (r: Result<()>)
      requires Valid() && Sane(protection)
      modifies this, memory, space, space.tables
      ensures Valid() && memory == old(memory) && memory.brk == old(memory.brk) && space.Frames() == old(space.Frames())
      ensures r.Err? ==> space.seen == old(space.seen) && memory.regions == old(memory.regions)
      ensures r.Ok? <==> CanProtect(old(memory.regions), start, length, protection)
      ensures r.Ok? ==> PageUp(length).Some? &&
                        ProtectedOver(old(memory.regions), memory.regions, start, start + PageUp(length).value,
                            protection)
    {
      var changed := memory.Mprotect(start, length, protection);
      if changed.Err? {
        return Err(changed.error);
      }
      SpansPresent(old(memory.regions), space.seen, changed.value, start, start + PageUp(length).value);
      ghost var l := space.seen;
      var ok := ProtectSpans(changed.value, protection);
      if !ok {
        // `mprotect` puts the saved map back here.
        assert false;
      }
      AgreeAfterProtect(old(memory.regions), memory.regions, l, space.seen, changed.value, start,
          start + PageUp(length).value, protection);
      r := Ok(());
    }

    /** The page-table half of `brk`. */
    method Resize(change: BrkChange, ghost oldEnd: nat, ghost newEnd: nat) returns (ok: bool)
      requires space.Valid() && Aligned(oldEnd) && Aligned(newEnd) && newEnd <= USER_END
      requires change == BrkEffect(oldEnd, newEnd) && AllClear(space.seen, oldEnd, newEnd)
      modifies space, space.tables
      ensures space.Valid() && space.Frames() == old(space.Frames())
      ensures !ok ==> space.seen == old(space.seen) && newEnd > oldEnd
      ensures Suffices(old(space.tables.pool), oldEnd, newEnd) ==> ok
      ensures ok ==> Resized(old(space.seen), space.seen, oldEnd, newEnd)
    {
      ok := true;
      match change {
        case Unchanged =>
        case Unmap(span) =>
          UnmapSpan(span.start, span.end);
        case Map(span) =>
          ok := MapSpan(Region(span.start, span.end, READ_WRITE, Heap), span.start, span.end);
      }
    }

    /** `brk`: returns the new break, or the old one if it cannot move. `moved` says whether
        the memory map took the new break. */
    method Brk(address: nat) returns (r: nat, moved: bool)
      requires Valid() && address <= U64_MAX
      modifies this, memory, space, space.tables
      ensures memory.Valid() && space.Valid() && space.Frames() == old(space.Frames()) && r == memory.brk
      ensures !moved ==> Valid() && memory.brk == old(memory.brk) && SameMeaning(old(memory.regions), memory.regions)
      ensures moved ==>
            memory == old(memory) && memory.brk == address && PageUp(old(memory.brk)).Some? && PageUp(address).Some?
      ensures moved ==> 0 < address && old(memory.CanSetBrk(memory.regions, memory.brk, address))
      ensures 0 < address <= old(memory.brk) && old(memory.CanSetBrk(memory.regions, memory.brk, address)) ==> moved
      ensures 0 < address && old(memory.CanSetBrk(memory.regions, memory.brk, address)) ==>
        RoomToMove(old(space.tables.pool), old(memory.brk), address) ==> moved
      ensures moved ==> HeapRebuilt(old(memory.regions), memory.regions, memory.brkStart, PageUp(address).value)
      ensures moved ==> (Valid() <==> HeapIntact(old(memory.regions), memory.brkStart,
                                                 Min(PageUp(old(memory.brk)).value, PageUp(address).value)))
    {
      if address == 0 {
        return memory.brk, false;
      }
      var saved := new MemoryMap(memory.regions, memory.brkStart, memory.brk, memory.mmapTop);
      var change := memory.SetBrk(address);
      if change.Err? {
        return memory.brk, false;
      }
      moved := FollowBrk(old(memory.regions), saved.brkStart, saved.brk, change.value, address);
      if !moved {
        memory := saved;
      }
      if address <= saved.brk {
        ShrinkHasRoom(old(space.tables.pool), saved.brk, address);
      }
      r := memory.brk;
    }

    /** The page tables follow the new break, if there are frames. */
    method FollowBrk(ghost rs: seq<Region>, ghost start: nat, ghost brk: nat, change: BrkChange, ghost address: nat)
      returns (moved: bool)
      requires space.Valid() && Agree(rs, space.seen) && Sorted(rs, 0, USER_END) && HeapWithin(rs, start, brk)
      requires start <= brk && start <= address && PageUp(brk).Some? && PageUp(address).Some?
      requires PageUp(address).value <= USER_END
      requires !Blocked(rs, start, Max(PageUp(brk).value, PageUp(address).value))
      requires HeapRebuilt(rs, memory.regions, start, PageUp(address).value)
      requires change == BrkEffect(PageUp(brk).value, PageUp(address).value)
      modifies space, space.tables
      ensures space.Valid() && space.Frames() == old(space.Frames())
      ensures !moved ==> space.seen == old(space.seen)
      ensures moved ==> (Agree(memory.regions, space.seen) <==>
                         HeapIntact(rs, start, Min(PageUp(brk).value, PageUp(address).value)))
      ensures RoomToMove(old(space.tables.pool), brk, address) ==> moved
    {
      ghost var l := space.seen;
      ghost var oldEnd, newEnd := PageUp(brk).value, PageUp(address).value;
      ClearAbove(rs, l, start, brk, oldEnd, newEnd);
      moved := Resize(change, oldEnd, newEnd);
      if moved {
        BrkMoved(rs, memory.regions, l, space.seen, start, brk, oldEnd, newEnd);
      }
    }
  }

  /** What moving the break does to the pages. */
  ghost predicate Resized(l: Seen, l': Seen, oldEnd: nat, newEnd: nat) {
    if newEnd > oldEnd then Filled(l, l', oldEnd, newEnd, Region(oldEnd, newEnd, READ_WRITE, Heap))
    else Cleared(l, l', newEnd, oldEnd)
  }

  lemma ClearAbove(rs: seq<Region>, l: Seen, start: nat, brk: nat, oldEnd: nat, newEnd: nat)
    requires Sorted(rs, 0, USER_END) && Agree(rs, l) && HeapWithin(rs, start, brk) && PageUp(brk) == Some(oldEnd)
    requires start <= brk && !Blocked(rs, start, Max(oldEnd, newEnd))
    ensures AllClear(l, oldEnd, newEnd)
  {
    HeapAbove(rs, l, start, brk, oldEnd, newEnd);
  }

  lemma BrkMoved(rs: seq<Region>, rs': seq<Region>, l: Seen, l': Seen, start: nat, brk: nat, oldEnd: nat, newEnd: nat)
    requires Sorted(rs, 0, USER_END) && Agree(rs, l) && HeapWithin(rs, start, brk) && PageUp(brk) == Some(oldEnd)
    requires start <= brk && start <= newEnd && !Blocked(rs, start, Max(oldEnd, newEnd))
    requires HeapRebuilt(rs, rs', start, newEnd) && Resized(l, l', oldEnd, newEnd)
    ensures Agree(rs', l') <==> HeapIntact(rs, start, Min(oldEnd, newEnd))
  {
    HeapAbove(rs, l, start, brk, oldEnd, newEnd);
    BrkAgreement(rs, rs', l, l', start, oldEnd, newEnd);
  }

  /** Frames for the pages between the two breaks. */
  ghost predicate RoomToMove(pool: set<nat>, brk: nat, address: nat) {
    PageUp(brk).Some? && PageUp(address).Some? && Suffices(pool, PageUp(brk).value, PageUp(address).value)
  }

  lemma ShrinkHasRoom(pool: set<nat>, brk: nat, address: nat)
    requires address <= brk && PageUp(brk).Some? && PageUp(address).Some?
    ensures RoomToMove(pool, brk, address)
  {
    assert PageUp(address).value <= PageUp(brk).value;
  }

  /** When `mprotect` goes through. */
  ghost predicate CanProtect(rs: seq<Region>, start: nat, length: nat, p: Protection) {
    && Aligned(start) && PageUp(length).Some? && start + PageUp(length).value <= U64_MAX
    && AllMapped(rs, start, start + PageUp(length).value)
    && !(p.execute && AnyDevice(rs, start, start + PageUp(length).value))
  }

  /** Four frames are free for every page of `start..end`. */
  ghost predicate Suffices(pool: set<nat>, start: nat, end: nat) {
    start + |pool| / 4 * PAGE >= end
  }

  lemma SufficesNext(n: nat, n': nat, page: nat, end: nat)
    requires page < end && page + n / 4 * PAGE >= end
    ensures n >= 4 && (n' + 4 >= n ==> page + PAGE + n' / 4 * PAGE >= end)
  {
    assert n' + 4 >= n ==> n' / 4 + 1 >= n / 4;
  }

  lemma SufficesMore(a: set<nat>, b: set<nat>, start: nat, end: nat)
    requires a <= b && Suffices(a, start, end)
    ensures Suffices(b, start, end)
  {
    PageTables.SubsetSize(a, b);
  }

  /** What a placement leaves for the page tables to carry out. */
  ghost predicate Applicable(before: seq<Region>, after: seq<Region>, change: MmapChange, kind: Kind) {
    && !kind.Heap? && Sane(change.added.protection) && AlignedSpans(change.replaced)
    && change.added.start < change.added.end <= USER_END
    && Aligned(change.added.start) && Aligned(change.added.end)
    && ExactSpans(before, change.replaced, change.added.start, change.added.end)
    && PlacedOver(before, after, Region(change.added.start, change.added.end, change.added.protection, kind))
  }

  ghost predicate Proposal(before: seq<Region>, after: seq<Region>, change: MmapChange, size: nat,
                           protection: Protection, fixed: bool, kind: Kind) {
    && Applicable(before, after, change, kind)
    && change.added == Span(change.address, change.address + size, protection)
    && (fixed || FreeRange(before, change.address, size))
  }

  /** A region of `length` bytes, rounded up to whole pages, lies at `address`; the rest is as before. */
  ghost predicate PlacedAt(before: seq<Region>, after: seq<Region>, address: nat, length: nat,
                           protection: Protection, kind: Kind) {
    && PageUp(length).Some?
    && PlacedOver(before, after, Region(address, address + PageUp(length).value, protection, kind))
  }

  /** The process can reach the pages from `address` on as the protection says, and they lie in memory of
      its own, or one after the other in the device's from `physical` on. */
  ghost predicate AccessGiven(seen: Seen, address: nat, length: nat, p: Protection, physical: Option<nat>) {
    PageUp(length).Some? &&
    forall a: nat :: PageIn(a, address, address + PageUp(length).value) ==>
      && a in seen && seen[a].user == p.read && seen[a].write == p.write && seen[a].execute == p.execute
      && seen[a].device == if physical.Some? then Some(physical.value + (a - address)) else None
  }

  lemma PlacedSeen(before: seq<Region>, after: seq<Region>, seen: Seen, address: nat, length: nat,
                   protection: Protection, kind: Kind)
    requires PlacedAt(before, after, address, length, protection, kind) && Agree(after, seen) && !kind.Heap?
    ensures AccessGiven(seen, address, length, protection, if kind.Device? then Some(kind.physical) else None)
  {
    var region := Region(address, address + PageUp(length).value, protection, kind);
    forall a: nat | PageIn(a, address, address + PageUp(length).value)
      ensures a in seen && seen[a] == LeafFor(BackingAt(region, a))
    {
      assert PageAgrees(after, seen, a);
      assert At(after, a) == Some(BackingAt(region, a));
    }
  }

  /** The address `mmap` gives a mapping of `length` bytes. */
  ghost predicate AddressFor(before: seq<Region>, brk: nat, top: nat, hint: nat, length: nat, fixed: bool, a: nat) {
    PageUp(length).Some? && Chosen(before, brk, top, hint, PageUp(length).value, fixed, a)
  }

  /** What the call refuses whatever is mapped. */
  predicate BadCall(hint: nat, length: nat, fixed: bool) {
    length == 0 || (fixed && !Aligned(hint) && PageUp(length).Some?)
  }

  ghost predicate HoleAt(before: seq<Region>, after: seq<Region>, address: nat, length: nat) {
    PageUp(length).Some? && GoneFrom(before, after, address, address + PageUp(length).value)
  }

  lemma ProposalPlaces(before: seq<Region>, after: seq<Region>, change: MmapChange, length: nat,
                       protection: Protection, fixed: bool, kind: Kind)
    requires PageUp(length).Some?
    requires Proposal(before, after, change, PageUp(length).value, protection, fixed, kind)
    ensures PlacedAt(before, after, change.address, length, protection, kind)
  {
  }

  lemma PlacementApplies(m: MemoryMap, change: MmapChange, hint: nat, length: nat, protection: Protection,
                         fixed: bool, kind: Kind, before: seq<Region>, after: seq<Region>)
    requires m.Valid() && m.Placement(change, hint, length, protection, fixed, kind, before, after)
    requires 0 < length && Sane(protection) && !kind.Heap?
    ensures Proposal(before, after, change, length, protection, fixed, kind)
  {
  }

  ghost predicate Enough(pool: set<nat>, length: nat) {
    PageUp(length).Some? && |pool| / 4 * PAGE >= PageUp(length).value
  }

  lemma EnoughSuffices(pool: set<nat>, start: nat, length: nat)
    requires Enough(pool, length)
    ensures Suffices(pool, start, start + PageUp(length).value)
  {
  }

  lemma FewFrames(space: AddressSpace, page: nat, device: bool)
    ensures space.Needs(page, device) <= 4
  {
    PageTables.FewMissing(space.tables.at, [], PageTables.PathOf(page / PAGE));
  }

  /** Two region lists that say the same about every address. */
  ghost predicate SameMeaning(rs: seq<Region>, rs': seq<Region>) {
    forall a: nat :: At(rs', a) == At(rs, a)
  }

  lemma GoneFromFree(rs: seq<Region>, rs': seq<Region>, start: nat, length: nat)
    requires GoneFrom(rs, rs', start, start + length) && FreeRange(rs, start, length)
    ensures SameMeaning(rs, rs')
  {
    forall a: nat
      ensures At(rs', a) == At(rs, a)
    {
    }
  }

  // ---- agreement, step by step ---------------------------------------------------------------

  /** The leaves after unmapping the spans, against a map with the range gone. */
  lemma AgreeAfterRemoval(rs: seq<Region>, rs': seq<Region>, l: Seen, l': Seen, spans: seq<Span>, start: nat, end: nat)
    requires Agree(rs, l) && GoneFrom(rs, rs', start, end) && ExactSpans(rs, spans, start, end)
    requires ClearedSpans(l, l', spans)
    ensures Agree(rs', l') && AllClear(l', start, end)
  {
    forall a: nat
      ensures PageAgrees(rs', l', a) && (PageIn(a, start, end) ==> a !in l')
    {
      assert PageAgrees(rs, l, a);
    }
  }

  /** The leaves after filling a clear range, against a map with the region laid over it. */
  lemma AgreeAfterFill(rs: seq<Region>, mid: seq<Region>, rs': seq<Region>, l: Seen, l': Seen, r: Region)
    requires Agree(mid, l) && GoneFrom(rs, mid, r.start, r.end) && PlacedOver(rs, rs', r) && Sane(r.protection)
    requires Filled(l, l', r.start, r.end, r)
    ensures Agree(rs', l')
  {
    forall a: nat
      ensures PageAgrees(rs', l', a)
    {
      assert PageAgrees(mid, l, a);
    }
  }

  /** There is always a list that describes a map with a range gone. */
  lemma GapExists(rs: seq<Region>, start: nat, end: nat)
    requires Sorted(rs, 0, USER_END) && Aligned(start) && Aligned(end) && start < end
    ensures Sorted(Without(rs, start, end), 0, USER_END) && GoneFrom(rs, Without(rs, start, end), start, end)
  {
    RemoveFacts(rs, start, end);
  }

  /** Only what `At` says matters. */
  lemma AgreeTransfers(rs: seq<Region>, rs': seq<Region>, l: Seen, start: nat, end: nat, base: seq<Region>)
    requires Agree(rs, l) && GoneFrom(base, rs, start, end) && GoneFrom(base, rs', start, end)
    ensures Agree(rs', l)
  {
    forall a: nat
      ensures PageAgrees(rs', l, a)
    {
      assert PageAgrees(rs, l, a) && At(rs, a) == At(rs', a);
    }
  }

  lemma SpansGrow(spans: seq<Span>, i: nat)
    requires i < |spans|
    ensures forall a: nat :: InSpans(spans[..i + 1], a) <==>
        InSpans(spans[..i], a) || spans[i].start <= a < spans[i].end
  {
    assert spans[..i + 1] == spans[..i] + [spans[i]];
    forall a: nat
      ensures InSpans(spans[..i + 1], a) <==> InSpans(spans[..i], a) || spans[i].start <= a < spans[i].end
    {
      InSpansConcat(spans[..i], [spans[i]], a);
      OneSpan(spans[i], a);
    }
  }

  lemma ClearedTwice(l: Seen, mid: Seen, l': Seen, spans: seq<Span>, i: nat)
    requires i < |spans| && ClearedSpans(l, mid, spans[..i]) && Cleared(mid, l', spans[i].start, spans[i].end)
    ensures ClearedSpans(l, l', spans[..i + 1])
  {
    SpansGrow(spans, i);
  }

  /** Unmapping what was mapped into clear pages restores them. */
  lemma Undone(l: Seen, mid: Seen, l': Seen, start: nat, page: nat, end: nat, r: Region)
    requires Aligned(start) && Aligned(page) && r.start <= start <= page && page + PAGE <= end
    requires AllClear(l, start, end)
    requires Filled(l, mid, start, page, r) && Cleared(mid, l', start, page + PAGE)
    ensures l' == l
  {
    PagesGrow(start, page);
    forall a: nat
      ensures a in l' <==> a in l
      ensures a in l' ==> l'[a] == l[a]
    {
      assert PageIn(a, start, page + PAGE) ==> PageIn(a, start, end);
    }
    assert l'.Keys == l.Keys;
  }

  // ---- mprotect ----------------------------------------------------------------------------

  function Recolour(leaf: UserLeaf, p: Protection): UserLeaf {
    UserLeaf(p.read, p.write, p.execute, leaf.device)
  }

  /** `l'` is `l` with another protection on the pages of `start..end`. */
  ghost predicate Recoloured(l: Seen, l': Seen, start: nat, end: nat, p: Protection) {
    && l'.Keys == l.Keys
    && forall a: nat :: a in l' ==> l'[a] == if PageIn(a, start, end) then Recolour(l[a], p) else l[a]
  }

  lemma RecolourStep(l: Seen, mid: Seen, l': Seen, start: nat, page: nat, p: Protection)
    requires Aligned(start) && Aligned(page) && start <= page && Recoloured(l, mid, start, page, p)
    requires page in mid && l' == mid[page := Granted(p, mid[page].device)]
    ensures Recoloured(l, l', start, page + PAGE, p)
  {
    PagesGrow(start, page);
    assert l'.Keys == mid.Keys;
  }

  ghost predicate RecolouredSpans(l: Seen, l': Seen, spans: seq<Span>, p: Protection) {
    && l'.Keys == l.Keys
    && forall a: nat :: a in l' ==> l'[a] == if Aligned(a) && InSpans(spans, a) then Recolour(l[a], p) else l[a]
  }

  ghost predicate AllPresent(l: Seen, spans: seq<Span>) {
    forall a: nat :: Aligned(a) && InSpans(spans, a) ==> a in l
  }

  lemma MissingPage(l: Seen, spans: seq<Span>, i: nat)
    requires i < |spans| && !forall a: nat :: PageIn(a, spans[i].start, spans[i].end) ==> a in l
    ensures !AllPresent(l, spans)
  {
    var a: nat :| PageIn(a, spans[i].start, spans[i].end) && a !in l;
    assert InSpans(spans, a);
  }

  lemma MissingSpan(l: Seen, mid: Seen, spans: seq<Span>, i: nat, p: Protection)
    requires i < |spans| && !forall a: nat :: PageIn(a, spans[i].start, spans[i].end) ==> a in mid
    requires RecolouredSpans(l, mid, spans[..i], p)
    ensures !AllPresent(l, spans)
  {
    MissingPage(mid, spans, i);
  }

  lemma UnrecolouredSpans(l: Seen, spans: seq<Span>, p: Protection)
    ensures RecolouredSpans(l, l, spans[..0], p)
  {
    NoSpans(spans);
  }

  lemma NoSpans(spans: seq<Span>)
    ensures forall a: nat :: !InSpans(spans[..0], a)
  {
  }

  lemma RecolourTwice(l: Seen, mid: Seen, l': Seen, spans: seq<Span>, i: nat, p: Protection)
    requires i < |spans| && Recoloured(mid, l', spans[i].start, spans[i].end, p)
    requires RecolouredSpans(l, mid, spans[..i], p)
    ensures RecolouredSpans(l, l', spans[..i + 1], p)
  {
    SpansGrow(spans, i);
    forall a: nat | a in l'
      ensures l'[a] == if Aligned(a) && InSpans(spans[..i + 1], a) then Recolour(l[a], p) else l[a]
    {
      assert a in mid;
    }
  }

  lemma SpansPresent(rs: seq<Region>, l: Seen, spans: seq<Span>, start: nat, end: nat)
    requires Agree(rs, l) && ExactSpans(rs, spans, start, end)
    ensures AllPresent(l, spans)
  {
    forall a: nat | Aligned(a) && InSpans(spans, a)
      ensures a in l
    {
      assert PageAgrees(rs, l, a);
    }
  }

  lemma AgreeAfterProtect(rs: seq<Region>, rs': seq<Region>, l: Seen, l': Seen, spans: seq<Span>,
                          start: nat, end: nat, p: Protection)
    requires Agree(rs, l) && ProtectedOver(rs, rs', start, end, p) && ExactSpans(rs, spans, start, end)
    requires RecolouredSpans(l, l', spans, p)
    ensures Agree(rs', l')
  {
    forall a: nat
      ensures PageAgrees(rs', l', a)
    {
      assert PageAgrees(rs, l, a);
      assert a in l' <==> a in l;
    }
  }

  // ---- brk -----------------------------------------------------------------------------------

  /** Every page of `start..end` is read-write heap. */
  ghost predicate HeapIntact(rs: seq<Region>, start: nat, end: nat) {
    forall a: nat :: PageIn(a, start, end) ==> At(rs, a) == Some(Backing(READ_WRITE, Heap))
  }

  lemma HeapAbove(rs: seq<Region>, l: Seen, start: nat, brk: nat, oldEnd: nat, newEnd: nat)
    requires Sorted(rs, 0, USER_END) && Agree(rs, l) && HeapWithin(rs, start, brk) && PageUp(brk) == Some(oldEnd)
    requires start <= brk && !Blocked(rs, start, Max(oldEnd, newEnd))
    ensures AllClear(l, oldEnd, newEnd)
    ensures forall a: nat :: IsHeap(rs, a) ==> start <= a < oldEnd
    ensures forall a: nat :: start <= a < Max(oldEnd, newEnd) && At(rs, a).Some? ==> IsHeap(rs, a)
  {
    BlockedFacts(rs, start, Max(oldEnd, newEnd));
    forall a: nat | PageIn(a, oldEnd, newEnd)
      ensures a !in l
    {
      assert PageAgrees(rs, l, a);
      assert At(rs, a).Some? ==> IsHeap(rs, a);
    }
  }

  /** A moved break keeps page tables and memory map in agreement if and only if the part of
      the heap it keeps was read-write heap throughout. */
  lemma BrkAgreement(rs: seq<Region>, rs': seq<Region>, l: Seen, l': Seen, start: nat, oldEnd: nat, newEnd: nat)
    requires Agree(rs, l) && HeapRebuilt(rs, rs', start, newEnd) && start <= oldEnd && start <= newEnd
    requires forall a: nat :: IsHeap(rs, a) ==> start <= a < oldEnd
    requires forall a: nat :: start <= a < Max(oldEnd, newEnd) && At(rs, a).Some? ==> IsHeap(rs, a)
    requires Resized(l, l', oldEnd, newEnd)
    ensures Agree(rs', l') <==> HeapIntact(rs, start, Min(oldEnd, newEnd))
  {
    forall a: nat
      ensures PageAgrees(rs', l', a) <==>
              (PageIn(a, start, Min(oldEnd, newEnd)) ==> At(rs, a) == Some(Backing(READ_WRITE, Heap)))
    {
      assert PageAgrees(rs, l, a);
      PageAfterBrk(rs, rs', l, l', start, oldEnd, newEnd, a);
    }
  }

  lemma PageAfterBrk(rs: seq<Region>, rs': seq<Region>, l: Seen, l': Seen, start: nat, oldEnd: nat, newEnd: nat, a: nat)
    requires PageAgrees(rs, l, a) && HeapRebuilt(rs, rs', start, newEnd) && start <= oldEnd && start <= newEnd
    requires IsHeap(rs, a) ==> start <= a < oldEnd
    requires start <= a < Max(oldEnd, newEnd) && At(rs, a).Some? ==> IsHeap(rs, a)
    requires if newEnd > oldEnd then Filled(l, l', oldEnd, newEnd, Region(oldEnd, newEnd, READ_WRITE, Heap))
             else Cleared(l, l', newEnd, oldEnd)
    ensures PageAgrees(rs', l', a) <==>
            (PageIn(a, start, Min(oldEnd, newEnd)) ==> At(rs, a) == Some(Backing(READ_WRITE, Heap)))
  {
  }

  /** What goes wrong otherwise. A process makes the first page of its heap read-only and moves the
      break to where it already is. Both calls succeed; the map then says read-write, the page
      tables read-only. */
  method BrkAfterMprotect(p: OwnedSpace)
    requires p.Valid() && p.memory.brkStart < p.memory.brk
    requires p.memory.CanSetBrk(p.memory.regions, p.memory.brk, p.memory.brk)
    requires forall a: nat :: p.memory.brkStart <= a < p.memory.brkStart + PAGE ==> IsHeap(p.memory.regions, a)
    modifies p, p.memory, p.space, p.space.tables
    ensures p.memory == old(p.memory) && p.memory.brk == old(p.memory.brk)
    ensures p.space.Valid() && p.memory.Valid() && !p.Valid()
  {
    var start, brk := p.memory.brkStart, p.memory.brk;
    var read := Protection(true, false, false);
    ghost var rs := p.memory.regions;
    HeapIsMapped(rs, start, start + PAGE);
    var r := p.Mprotect(start, PAGE, read);
    StillUnblocked(rs, p.memory.regions, start, PageUp(brk).value, read);
    assert p.memory.CanSetBrk(p.memory.regions, p.memory.brk, brk);
    assert PageIn(start, start, PageUp(brk).value) && At(p.memory.regions, start).value.protection == read;
    var _, moved := p.Brk(brk);
  }

  lemma StillUnblocked(rs: seq<Region>, rs': seq<Region>, start: nat, limit: nat, p: Protection)
    requires Sorted(rs, 0, USER_END) && Sorted(rs', 0, USER_END) && start < limit && !Blocked(rs, start, limit)
    requires ProtectedOver(rs, rs', start, start + PAGE, p)
    ensures !Blocked(rs', start, limit)
  {
    BlockedFacts(rs, start, limit);
    BlockedFacts(rs', start, limit);
    forall a: nat | start <= a < limit && At(rs', a).Some?
      ensures IsHeap(rs', a)
    {
      assert At(rs, a).Some? && IsHeap(rs, a);
    }
  }

  lemma HeapIsMapped(rs: seq<Region>, start: nat, end: nat)
    requires forall a: nat :: start <= a < end ==> IsHeap(rs, a)
    ensures AllMapped(rs, start, end)
    ensures !AnyDevice(rs, start, end)
  {
    forall a: nat | start <= a < end
      ensures At(rs, a).Some? && !At(rs, a).value.kind.Device?
    {
      assert IsHeap(rs, a);
    }
  }
}
