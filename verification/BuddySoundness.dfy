/** What the buddy lists promise about a bitmap, and that pushing, unlinking, merging, carving
    and isolating keep it. */
module BuddySoundness {
  import opened Outcomes
  import opened Dyadic
  import opened FreeBlocks
  import opened BuddyLists

  /** The frames the bitmap calls free. */
  ghost function FreeSet(state: seq<State>): set<nat> {
    set x: nat | x < |state| && state[x] == Free
  }

  /** A frame of `trusted` that carries a tag heads a maximal block: no stale tags there. */
  ghost predicate Clean(nodes: seq<Node>, trusted: set<nat>, free: set<nat>) {
    forall x: nat {:trigger Heads(free, x)} ::
      x in trusted && x < |nodes| && nodes[x].tagged ==> Heads(free, x)
  }

  ghost predicate Heads(free: set<nat>, x: nat) {
    exists o: nat :: Maximal(free, x, o)
  }

  ghost predicate Sound(state: seq<State>, nodes: seq<Node>, heads: map<ListId, Option<nat>>, counts: map<ListId, nat>,
                        lists: Lists, trusted: set<nat>, free: set<nat>)
  {
    && |nodes| == |state| && free <= FreeSet(state)
    && Links(nodes, heads, counts, lists) && Indexed(lists, free) && Clean(nodes, trusted, free)
  }

  // ---- push and unlink keep everything ---------------------------------------------------------

  /** A maximal block starts with a frame of the set. */
  lemma MaximalHead(free: set<nat>, f: nat, o: nat)
    requires Maximal(free, f, o)
    ensures f in free && f in Block(f, o)
  {
    InParent(f, o);
  }

  lemma NotListedYet(lists: Lists, less: set<nat>, more: set<nat>, f: nat, o: nat)
    requires Indexes(lists, less) && Adds(less, more, f, o)
    ensures forall k :: !Listed(lists, f, k)
  {
    assert Maximal(more, f, o);
    forall k
      ensures !Listed(lists, f, k)
    {
      if Listed(lists, f, k) {
        assert Maximal(less, f, k);
        assert Maximal(more, f, k);
        MaximalHead(more, f, k);
        MaximalHead(more, f, o);
        MaximalMeet(more, f, f, o, f, k);
      }
    }
  }

  lemma PushClean(nodes: seq<Node>, nodes': seq<Node>, trusted: set<nat>, less: set<nat>, more: set<nat>, f: nat,
                  o: nat)
    requires Clean(nodes, trusted, less) && Adds(less, more, f, o) && |nodes'| == |nodes|
    requires forall x: nat :: x < |nodes| && x != f ==> nodes'[x].tagged == nodes[x].tagged
    ensures Clean(nodes', trusted, more)
  {
    assert Maximal(more, f, o);
    forall x: nat | x in trusted && x < |nodes| && nodes'[x].tagged
      ensures Heads(more, x)
    {
      if x != f {
        assert Heads(less, x);
        var k: nat :| Maximal(less, x, k);
        assert Maximal(more, x, k);
      }
    }
  }

  /** Only the tag of `f` is gone. */
  ghost predicate Untagged(nodes: seq<Node>, nodes': seq<Node>, f: nat) {
    |nodes'| == |nodes| && forall x: nat :: x < |nodes| ==> nodes'[x].tagged == (nodes[x].tagged && x != f)
  }

  lemma UnlinkTags(nodes: seq<Node>, l: seq<nat>, i: nat)
    requires i < |l| && UnlinkReady(nodes, l, i)
    ensures Untagged(nodes, UnlinkNodes(nodes, l[i]), l[i])
  {
  }

  lemma UnlinkClean(nodes: seq<Node>, nodes': seq<Node>, trusted: set<nat>, less: set<nat>, more: set<nat>, f: nat,
                    o: nat)
    requires Clean(nodes, trusted, more) && Adds(less, more, f, o) && |nodes'| == |nodes|
    requires f < |nodes| && Untagged(nodes, nodes', f)
    ensures Clean(nodes', trusted, less)
  {
    forall x: nat | x in trusted && x < |nodes| && nodes'[x].tagged
      ensures Heads(less, x)
    {
      assert Heads(more, x);
      var k: nat :| Maximal(more, x, k);
      assert Maximal(less, x, k);
    }
  }

  lemma PushSound(state: seq<State>, nodes: seq<Node>, heads: map<ListId, Option<nat>>, counts: map<ListId, nat>,
                  lists: Lists, trusted: set<nat>, less: set<nat>, more: set<nat>, id: ListId, f: nat)
    requires Sound(state, nodes, heads, counts, lists, trusted, less) && Adds(less, more, f, id.order)
    requires more <= FreeSet(state) && id.zone == ZoneOf(f)
    ensures f < |nodes| && ValidId(id) && id in heads && id in counts && id in lists
    ensures heads[id].Some? ==> heads[id].value < |nodes|
    ensures Sound(state, PushNodes(nodes, f, id.order, heads[id]), heads[id := Some(f)], counts[id := counts[id] + 1],
                  lists[id := [f] + lists[id]], trusted, more)
  {
    assert Maximal(more, f, id.order);
    MaximalHead(more, f, id.order);
    NotListedYet(lists, less, more, f, id.order);
    PushLinks(nodes, heads, counts, lists, id, f);
    PushIndexed(lists, less, more, id, f);
    PushClean(nodes, PushNodes(nodes, f, id.order, heads[id]), trusted, less, more, f, id.order);
  }

  lemma UnlinkSound(state: seq<State>, nodes: seq<Node>, heads: map<ListId, Option<nat>>, counts: map<ListId, nat>,
                    lists: Lists, trusted: set<nat>, less: set<nat>, more: set<nat>, id: ListId,
                        f: nat) returns (i: nat)
    requires Sound(state, nodes, heads, counts, lists, trusted, more) && Adds(less, more, f, id.order)
    requires less <= more && id.zone == ZoneOf(f)
    ensures ValidId(id) && id in heads && id in counts && id in lists && i < |lists[id]| && lists[id][i] == f
    ensures UnlinkReady(nodes, lists[id], i) && counts[id] > 0
    ensures Sound(state, UnlinkNodes(nodes, f), if nodes[f].prev.None? then heads[id := nodes[f].next] else heads,
                  counts[id := counts[id] - 1], lists[id := Dropped(lists[id], i)], trusted, less)
  {
    assert Maximal(more, f, id.order);
    assert Listed(lists, f, id.order);
    i :| i < |lists[id]| && lists[id][i] == f;
    assert ListOk(nodes, heads[id], counts[id], id, lists[id]);
    UnlinkLinks(nodes, heads, counts, lists, id, i);
    UnlinkIndexed(nodes, lists, less, more, id, i);
    UnlinkTags(nodes, lists[id], i);
    UnlinkClean(nodes, UnlinkNodes(nodes, f), trusted, less, more, f, id.order);
  }

  // ---- merging -------------------------------------------------------------------------------------

  // ---- which frames are written ------------------------------------------------------------------------

  /** Nothing is written outside `s`. */
  ghost predicate Untouched(nodes: seq<Node>, nodes': seq<Node>, s: set<nat>) {
    |nodes'| == |nodes| && forall x: nat {:trigger nodes'[x]} :: x < |nodes| && x !in s ==> nodes'[x] == nodes[x]
  }

  /** The frames from `start` to `end` have become free, and only free frames were written. */
  ghost predicate RunAdded(was: seq<State>, state: seq<State>, before: seq<Node>, nodes: seq<Node>, start: nat,
                           end: nat)
    requires start <= end
  {
    && Marked(was, state, start, end - start, Free) && FreeSet(was) <= FreeSet(state)
    && Untouched(before, nodes, FreeSet(state))
  }

  lemma UntouchedTwice(a: seq<Node>, b: seq<Node>, c: seq<Node>, s: set<nat>, t: set<nat>, u: set<nat>)
    requires Untouched(a, b, s) && Untouched(b, c, t) && s <= u && t <= u
    ensures Untouched(a, c, u)
  {
    forall x: nat | x < |a| && x !in u
      ensures c[x] == a[x]
    {
      assert b[x] == a[x];
    }
  }

  lemma ListedIsFree(state: seq<State>, nodes: seq<Node>, heads: map<ListId, Option<nat>>, counts: map<ListId, nat>,
                     lists: Lists, trusted: set<nat>, free: set<nat>, id: ListId, i: nat)
    requires Sound(state, nodes, heads, counts, lists, trusted, free) && ValidId(id) && i < |lists[id]|
    ensures lists[id][i] < |nodes| && lists[id][i] in free && Maximal(free, lists[id][i], id.order)
  {
    assert ListOk(nodes, heads[id], counts[id], id, lists[id]);
    assert Listed(lists, lists[id][i], id.order);
    MaximalHead(free, lists[id][i], id.order);
  }

  /** Pushing writes to the block and to the old head of the list ... */
  lemma PushWrites(state: seq<State>, nodes: seq<Node>, heads: map<ListId, Option<nat>>, counts: map<ListId, nat>,
                   lists: Lists, trusted: set<nat>, less: set<nat>, id: ListId, f: nat)
    requires Sound(state, nodes, heads, counts, lists, trusted, less) && ValidId(id) && f < |nodes|
    ensures heads[id].Some? ==> heads[id].value < |nodes|
    ensures Untouched(nodes, PushNodes(nodes, f, id.order, heads[id]), less + {f})
  {
    assert ListOk(nodes, heads[id], counts[id], id, lists[id]);
    if heads[id].Some? {
      ListedIsFree(state, nodes, heads, counts, lists, trusted, less, id, 0);
    }
  }

  /** ... and unlinking to the block and its neighbours. */
  lemma UnlinkWrites(state: seq<State>, nodes: seq<Node>, heads: map<ListId, Option<nat>>, counts: map<ListId, nat>,
                     lists: Lists, trusted: set<nat>, less: set<nat>, more: set<nat>, id: ListId, f: nat, i: nat)
    requires Sound(state, nodes, heads, counts, lists, trusted, more) && Adds(less, more, f, id.order) && ValidId(id)
    requires i < |lists[id]| && lists[id][i] == f && UnlinkReady(nodes, lists[id], i)
    ensures Untouched(nodes, UnlinkNodes(nodes, f), less + {f})
  {
    var l := lists[id];
    if i > 0 {
      ListedIsFree(state, nodes, heads, counts, lists, trusted, more, id, i - 1);
      NeighbourStays(less, more, f, id.order, l[i - 1]);
    }
    if i + 1 < |l| {
      ListedIsFree(state, nodes, heads, counts, lists, trusted, more, id, i + 1);
      NeighbourStays(less, more, f, id.order, l[i + 1]);
    }
    ThreeWritten(nodes, l, i, less + {f});
  }

  lemma ThreeWritten(nodes: seq<Node>, l: seq<nat>, i: nat, s: set<nat>)
    requires i < |l| && UnlinkReady(nodes, l, i) && l[i] in s
    requires (i > 0 ==> l[i - 1] in s) && (i + 1 < |l| ==> l[i + 1] in s)
    ensures Untouched(nodes, UnlinkNodes(nodes, l[i]), s)
  {
  }

  lemma UntouchedMore(a: seq<Node>, b: seq<Node>, s: set<nat>, t: set<nat>)
    requires Untouched(a, b, s) && s <= t
    ensures Untouched(a, b, t)
  {
  }

  lemma UpperIn(free: set<nat>, f: nat, c: nat)
    requires FreeBlock(free, f, c + 1)
    ensures f + Pow2(c) in free
  {
    assert f + Pow2(c) in Block(f, c + 1);
  }

  /** What merging with the free buddy relies on. */
  lemma MergeReady(free: set<nat>, f: nat, o: nat, b: nat, frame: nat, less: set<nat>, more: set<nat>)
    requires FreeBlock(free, f, o) && o < MAX_ORDER && b == Buddy(f, o) && frame == (if f < b then f else b)
    requires FreeBlock(free, Down(f, o + 1), o + 1)
    requires less == free - Block(frame, o + 1) && more == free - Block(f, o)
    ensures FreeBlock(free, frame, o + 1) && Adds(less, more, b, o) && less <= more && less + {b} <= more
    ensures Block(f, o) <= Block(frame, o + 1) && (frame == f || frame in more)
  {
    BuddyIsSibling(f, o);
    MergeAdds(free, f, o, b, frame);
    MergeWithin(free, f, o, b, frame);
  }

  /** A merged block holds the one in hand, and starts there or in what was free besides it. */
  lemma MergeWithin(free: set<nat>, f: nat, o: nat, b: nat, frame: nat)
    requires FreeBlock(free, f, o) && o < MAX_ORDER && b == Buddy(f, o) && frame == (if f < b then f else b)
    requires FreeBlock(free, Down(f, o + 1), o + 1)
    ensures Block(f, o) <= Block(frame, o + 1) && (frame == f || frame in free - Block(f, o)) && b in free - Block(f, o)
  {
    BuddyIsSibling(f, o);
    var h := Down(f, o + 1);
    SplitBlock(h, o);
    assert b in Block(h, o + 1);
  }

  lemma NeighbourStays(less: set<nat>, more: set<nat>, f: nat, o: nat, g: nat)
    requires Adds(less, more, f, o) && Maximal(more, g, o)
    ensures g in less + {f}
  {
    if g != f {
      assert Maximal(less, g, o);
      MaximalHead(less, g, o);
    }
  }

  lemma SingleBlock(x: nat)
    ensures Block(x, 0) == {x} && AlignedAt(x, 0)
  {
    assert InBlock(x, x, 0);
  }

  /** With a free block kept out, its buddy frame heads a block no larger than it, if free. */
  lemma BuddyHeads(free: set<nat>, f: nat, o: nat, b: nat) returns (k: nat)
    requires FreeBlock(free, f, o) && b == Buddy(f, o) && b in free && b !in Block(f, o)
    ensures k <= o && Maximal(free - Block(f, o), b, k)
  {
    var rest := free - Block(f, o);
    SingleBlock(b);
    assert FreeBlock(rest, b, 0);
    var g;
    g, k := Enclosing(rest, b, 0);
    assert k <= o && AlignedAt(b, o) by {
      SiblingInside(f, o, b, g, k);
    }
    AlignedLower(b, k, o);
  }

  /** A block larger than `f` that holds its buddy holds `f` too. */
  lemma SiblingInside(f: nat, o: nat, b: nat, g: nat, k: nat)
    requires AlignedAt(f, o) && b == Buddy(f, o) && AlignedAt(g, k) && b in Block(g, k)
    ensures AlignedAt(b, o) && (k > o ==> f in Block(g, k)) && f in Block(f, o)
  {
    BuddyIsSibling(f, o);
    var h := Down(f, o + 1);
    Halves(h, o);
    InParent(f, o);
    InParent(b, o);
    if k > o {
      NestedBlocks(b, h, o + 1, g, k);
    }
  }

  /** The buddy is a maximal block beside a free block exactly when the two together are free. */
  lemma BuddyMaximal(free: set<nat>, f: nat, o: nat, b: nat)
    requires FreeBlock(free, f, o) && o < MAX_ORDER && b == Buddy(f, o)
    ensures var h := Down(f, o + 1); FreeBlock(free, h, o + 1) <==> Maximal(free - Block(f, o), b, o)
    ensures b !in Block(f, o)
  {
    BuddyIsSibling(f, o);
    var h := Down(f, o + 1);
    Halves(h, o);
    HalfBlocks(h, o, f, b);
    InParent(b, o);
    InParent(f, o);
    assert f in Block(h, o + 1) && f !in free - Block(f, o);
  }

  lemma MergeAdds(free: set<nat>, f: nat, o: nat, b: nat, h: nat)
    requires FreeBlock(free, h, o + 1) && ((f == h && b == h + Pow2(o)) || (b == h && f == h + Pow2(o)))
    ensures Adds(free - Block(h, o + 1), free - Block(f, o), b, o) && free - Block(h, o + 1) <= free - Block(f, o)
  {
    HalfAdds(free, h, o, f, b);
    HalfBlocks(h, o, f, b);
  }

  /** `is_free_head`. */
  predicate IsFreeHead(state: seq<State>, nodes: seq<Node>, f: nat, o: nat)
    requires |nodes| == |state|
  {
    f + Pow2(o) <= |state| && state[f] == Free && nodes[f].tagged && nodes[f].order == o
  }

  lemma FreeBlockFits(state: seq<State>, f: nat, o: nat)
    requires FreeBlock(FreeSet(state), f, o)
    ensures f + Pow2(o) <= |state| && state[f] == Free
  {
    assert InBlock(f, f, o) && InBlock(f + Pow2(o) - 1, f, o);
    assert f + Pow2(o) - 1 in Block(f, o) && f in Block(f, o);
  }

  lemma MaximalIsHead(state: seq<State>, nodes: seq<Node>, heads: map<ListId, Option<nat>>, counts: map<ListId, nat>,
                      lists: Lists, trusted: set<nat>, free: set<nat>, f: nat, o: nat)
    requires Sound(state, nodes, heads, counts, lists, trusted, free) && Maximal(free, f, o)
    ensures IsFreeHead(state, nodes, f, o)
  {
    assert Listed(lists, f, o);
    ListedOnce(nodes, heads, counts, lists, f, o);
    FreeBlockFits(state, f, o);
  }

  /** While merging, the head test is exact whatever the frames contain: the buddy of the block
      in hand either heads a block of some smaller order or is the block to merge with. */
  lemma BuddyTest(state: seq<State>, nodes: seq<Node>, heads: map<ListId, Option<nat>>, counts: map<ListId, nat>,
                  lists: Lists, trusted: set<nat>, f: nat, o: nat, b: nat)
    requires Sound(state, nodes, heads, counts, lists, trusted, FreeSet(state) - Block(f, o))
    requires FreeBlock(FreeSet(state), f, o) && o < MAX_ORDER && b == Buddy(f, o)
    ensures IsFreeHead(state, nodes, b, o) <==> FreeBlock(FreeSet(state), Down(f, o + 1), o + 1)
  {
    var free := FreeSet(state);
    var rest := free - Block(f, o);
    BuddyMaximal(free, f, o, b);
    if Maximal(rest, b, o) {
      MaximalIsHead(state, nodes, heads, counts, lists, trusted, rest, b, o);
    } else if IsFreeHead(state, nodes, b, o) {
      var k := BuddyHeads(free, f, o, b);
      assert Listed(lists, b, k);
      ListedOnce(nodes, heads, counts, lists, b, k);
      assert false;
    }
  }

  // ---- what allocation looks for ---------------------------------------------------------------

  /** No free block of order `o` or more, up to below `limit`, is maximal in the zone. */
  ghost predicate NoBlock(free: set<nat>, zone: nat, o: nat, limit: nat) {
    forall g: nat, k: nat {:trigger Maximal(free, g, k)} :: Maximal(free, g, k) && o <= k < limit ==> ZoneOf(g) != zone
  }

  /** ... so no aligned free block of that order lies in the zone at all: 4 GiB is a multiple of
      the largest block, so a block and the maximal one around it are in the same zone. */
  lemma NoBlockAtAll(free: set<nat>, zone: nat, o: nat, f: nat)
    requires NoBlock(free, zone, o, MAX_ORDER + 1) && FreeBlock(free, f, o)
    ensures ZoneOf(f) != zone
  {
    var g, k := Enclosing(free, f, o);
    SameZone(f, k);
    assert Maximal(free, g, k);
  }

  lemma SameZone(f: nat, k: nat)
    requires k <= MAX_ORDER
    ensures ZoneOf(Down(f, k)) == ZoneOf(f)
  {
    assert DMA32_FRAMES == Pow2(20) by {
      assert Pow2(5) == 32;
      assert Pow2(10) == 32 * Pow2(5);
      assert Pow2(15) == 32 * Pow2(10);
    }
    DownKeepsSide(f, k, 20);
  }

  /** `f` is where a block of order `o` is cut: from a smallest maximal block that is large
      enough, in the first of `zones` that has one. */
  ghost predicate Chosen(free: set<nat>, zones: seq<nat>, o: nat, f: nat) {
    exists j: nat, k: nat :: ChosenAt(free, zones, o, f, j, k)
  }

  ghost predicate ChosenAt(free: set<nat>, zones: seq<nat>, o: nat, f: nat, j: nat, k: nat) {
    && j < |zones| && ZoneOf(f) == zones[j] && (forall i :: 0 <= i < j ==> NoBlock(free, zones[i], o, MAX_ORDER + 1))
    && o <= k && Maximal(free, f, k) && NoBlock(free, zones[j], o, k)
  }

  /** The frames `f .. f + n` now have state `s`, the others the state they had. */
  ghost predicate Marked(was: seq<State>, now: seq<State>, f: nat, n: nat, s: State) {
    |now| == |was| && forall x: nat :: x < |was| ==> now[x] == if f <= x < f + n then s else was[x]
  }

  /** The error of a release, or none. */
  ghost function ReleaseOutcome(state: seq<State>, f: nat, o: nat): Option<ReleaseError> {
    if o > MAX_ORDER then Some(InvalidRange)
    else if f + Pow2(o) > |state| then Some(OutOfRange)
    else if Down(f, o) != f then Some(Unaligned)
    else if Block(f, o) !! (FreeSet(state) + AllocatedSet(state)) then Some(DuplicateRelease)
    else if Block(f, o) <= FreeSet(state) then Some(DoubleFree)
    else if Block(f, o) <= AllocatedSet(state) then None
    else Some(InvalidRange)
  }

  lemma RangeSets(state: seq<State>, f: nat, o: nat)
    requires f + Pow2(o) <= |state|
    ensures (forall x :: f <= x < f + Pow2(o) ==> state[x] == Reserved) <==>
            Block(f, o) !! (FreeSet(state) + AllocatedSet(state))
    ensures (forall x :: f <= x < f + Pow2(o) ==> state[x] == Free) <==> Block(f, o) <= FreeSet(state)
    ensures (forall x :: f <= x < f + Pow2(o) ==> state[x] == Allocated) <==> Block(f, o) <= AllocatedSet(state)
  {
    forall x: nat | f <= x < f + Pow2(o)
      ensures x in Block(f, o)
    {
      assert InBlock(x, f, o);
    }
    if Block(f, o) <= FreeSet(state) {
      forall x | f <= x < f + Pow2(o)
        ensures state[x] == Free
      {
        assert x in Block(f, o);
      }
    }
    if Block(f, o) <= AllocatedSet(state) {
      forall x | f <= x < f + Pow2(o)
        ensures state[x] == Allocated
      {
        assert x in Block(f, o);
      }
    }
    if Block(f, o) !! (FreeSet(state) + AllocatedSet(state)) {
      forall x | f <= x < f + Pow2(o)
        ensures state[x] == Reserved
      {
        assert x in Block(f, o);
        assert x !in FreeSet(state) + AllocatedSet(state);
      }
    }
  }

  ghost function AllocatedSet(state: seq<State>): set<nat> {
    set x: nat | x < |state| && state[x] == Allocated
  }

  lemma LowerHalf(free: set<nat>, f: nat, c: nat)
    requires FreeBlock(free, f, c + 1)
    ensures FreeBlock(free, f, c) && free - Block(f, c) <= free
    ensures Adds(free - Block(f, c + 1), free - Block(f, c), f + Pow2(c), c)
  {
    Halves(f, c);
    SplitBlock(f, c);
    HalfAdds(free, f, c, f, f + Pow2(c));
  }

  lemma MarkedTaken(was: seq<State>, now: seq<State>, f: nat, o: nat, s: State)
    requires Marked(was, now, f, Pow2(o), s) && s != Free
    ensures FreeSet(now) == FreeSet(was) - Block(f, o)
  {
    forall x: nat
      ensures x in FreeSet(now) <==> x in FreeSet(was) - Block(f, o)
    {
      assert InBlock(x, f, o) <==> f <= x < f + Pow2(o);
    }
  }

  lemma MarkedFree(was: seq<State>, now: seq<State>, f: nat, o: nat)
    requires Marked(was, now, f, Pow2(o), Free) && f + Pow2(o) <= |was|
    requires forall x: nat :: f <= x < f + Pow2(o) ==> was[x] != Free
    ensures FreeSet(was) == FreeSet(now) - Block(f, o) && Block(f, o) <= FreeSet(now)
  {
    forall x: nat
      ensures x in FreeSet(now) <==> x in FreeSet(was) + Block(f, o)
      ensures x in Block(f, o) ==> x !in FreeSet(was)
    {
      assert InBlock(x, f, o) <==> f <= x < f + Pow2(o);
    }
  }

  // ---- carving runs ------------------------------------------------------------------------------------

  /** The exponent of two in `f`, at most `m` (and `m` for zero). */
  function TrailingZeros(f: nat, m: nat): nat {
    if m == 0 || f % 2 == 1 then 0 else 1 + TrailingZeros(f / 2, m - 1)
  }

  lemma {:induction false} TrailingAligned(f: nat, m: nat)
    ensures var t := TrailingZeros(f, m); t <= m && AlignedAt(f, t) && (t < m ==> !AlignedAt(f, t + 1))
  {
    if m > 0 && f % 2 == 0 {
      TrailingAligned(f / 2, m - 1);
    }
  }

  /** The largest order whose aligned block at `f` ends by `end`. */
  ghost predicate LargestFit(f: nat, end: nat, o: nat) {
    && o <= MAX_ORDER && AlignedAt(f, o) && f + Pow2(o) <= end
    && (o < MAX_ORDER ==> !AlignedAt(f, o + 1) || f + Pow2(o + 1) > end)
  }

  method BlockOrder(f: nat, end: nat) returns (o: nat)
    requires f < end
    ensures LargestFit(f, end, o)
  {
    o := TrailingZeros(f, MAX_ORDER);
    TrailingAligned(f, MAX_ORDER);
    while f + Pow2(o) > end
      invariant o <= MAX_ORDER && AlignedAt(f, o)
      invariant o < MAX_ORDER ==> !AlignedAt(f, o + 1) || f + Pow2(o + 1) > end
    {
      AlignedLower(f, o - 1, o);
      o := o - 1;
    }
  }

  /** `start .. end` is a run of free frames with no free frame just before it. */
  ghost predicate Run(state: seq<State>, start: nat, end: nat) {
    && start <= end <= |state| && (start > 0 ==> state[start - 1] != Free)
    && forall x :: start <= x < end ==> state[x] == Free
  }

  /** How far the greedy carving of a run has come: a block that would end a larger aligned
      one at `c` starts before the run. */
  ghost predicate Carved(start: nat, c: nat, end: nat) {
    start <= c <= end && forall o: nat :: CarvedAt(start, c, end, o)
  }

  ghost predicate CarvedAt(start: nat, c: nat, end: nat, o: nat) {
    o < MAX_ORDER && AlignedAt(c, o) && !AlignedAt(c, o + 1) && c + Pow2(o) <= end ==> c < start + Pow2(o)
  }

  ghost function Below(free: set<nat>, c: nat): set<nat> {
    set x: nat | x in free && x < c
  }

  lemma CarveBelow(state: seq<State>, start: nat, c: nat, end: nat, o: nat)
    requires Run(state, start, end) && start <= c && LargestFit(c, end, o)
    ensures Below(FreeSet(state), c + Pow2(o)) - Block(c, o) == Below(FreeSet(state), c)
    ensures FreeBlock(Below(FreeSet(state), c + Pow2(o)), c, o)
  {
    var free := FreeSet(state);
    forall x: nat
      ensures x in Below(free, c + Pow2(o)) <==> x in Below(free, c) || x in Block(c, o)
      ensures x in Block(c, o) ==> x !in Below(free, c)
    {
      assert InBlock(x, c, o) <==> c <= x < c + Pow2(o);
    }
  }

  lemma CarveMaximal(state: seq<State>, start: nat, c: nat, end: nat, o: nat)
    requires Run(state, start, end) && Carved(start, c, end) && LargestFit(c, end, o)
    ensures Maximal(Below(FreeSet(state), c + Pow2(o)), c, o)
  {
    var below := Below(FreeSet(state), c + Pow2(o));
    CarveBelow(state, start, c, end, o);
    BuddyIsSibling(c, o);
    var h := Down(c, o + 1);
    var x := if h == c then c + Pow2(o) else if start > 0 then start - 1 else c;
    if o < MAX_ORDER {
      assert Pow2(o + 1) == 2 * Pow2(o);
      assert CarvedAt(start, c, end, o);
      assert InBlock(x, h, o + 1) && x !in below;
      assert x in Block(h, o + 1);
    }
  }

  lemma CarveAdds(state: seq<State>, start: nat, c: nat, end: nat, o: nat) returns (less: set<nat>, more: set<nat>)
    requires Run(state, start, end) && Carved(start, c, end) && LargestFit(c, end, o)
    ensures less == Below(FreeSet(state), c) && more == Below(FreeSet(state), c + Pow2(o)) && more <= FreeSet(state)
    ensures Adds(less, more, c, o)
  {
    less, more := Below(FreeSet(state), c), Below(FreeSet(state), c + Pow2(o));
    CarveBelow(state, start, c, end, o);
    CarveMaximal(state, start, c, end, o);
    WholeAdds(more, c, o);
  }

  lemma CarveNext(start: nat, c: nat, end: nat, p: nat)
    requires Carved(start, c, end) && LargestFit(c, end, p)
    ensures Carved(start, c + Pow2(p), end)
  {
    var d := c + Pow2(p);
    forall o: nat
      ensures CarvedAt(start, d, end, o)
    {
      if o < MAX_ORDER && AlignedAt(d, o) && !AlignedAt(d, o + 1) && d + Pow2(o) <= end {
        CarveNextAt(start, c, end, p, d, o);
      }
    }
  }

  lemma CarveNextAt(start: nat, c: nat, end: nat, p: nat, d: nat, o: nat)
    requires Carved(start, c, end) && LargestFit(c, end, p) && d == c + Pow2(p)
    requires o < MAX_ORDER && AlignedAt(d, o) && !AlignedAt(d, o + 1) && d + Pow2(o) <= end
    ensures d < start + Pow2(o)
  {
    SumAlignment(c, p, d, o);
    assert Pow2(p + 1) == 2 * Pow2(p);
    if o > p {
      assert CarvedAt(start, c, end, p);
      Pow2Mono(p + 1, o);
    }
  }

  /** Adding `2^p` to a multiple of it carries exactly when the multiple is odd. */
  lemma SumAlignment(c: nat, p: nat, d: nat, o: nat)
    requires AlignedAt(c, p) && d == c + Pow2(p) && AlignedAt(d, o) && !AlignedAt(d, o + 1)
    ensures o >= p && (o == p <==> AlignedAt(c, p + 1))
  {
    if AlignedAt(c, p + 1) {
      Halves(c, p);
      if o > p {
        AlignedLower(d, p + 1, o);
      }
    } else {
      UpperOfOdd(c, p);
    }
    UpperAligned(c, p);
    if o < p {
      AlignedLower(d, o + 1, p);
    }
  }

  lemma UpperOfOdd(c: nat, p: nat)
    requires AlignedAt(c, p) && !AlignedAt(c, p + 1)
    ensures AlignedAt(c + Pow2(p), p + 1)
  {
    BuddyIsSibling(c, p);
    UpperAligned(Down(c, p + 1), p + 1);
  }

  // ---- taking a single frame out ---------------------------------------------------------------------

  /** The first order from `o` whose aligned block around `f` looks like a listed head. */
  ghost function FirstHead(state: seq<State>, nodes: seq<Node>, f: nat, o: nat): (k: nat)
    requires |nodes| == |state|
    ensures o <= MAX_ORDER + 1 ==> o <= k <= MAX_ORDER + 1
    decreases MAX_ORDER + 1 - o
  {
    if o > MAX_ORDER || IsFreeHead(state, nodes, Down(f, o), o) then o else FirstHead(state, nodes, f, o + 1)
  }

  /** A frame at which a smaller block around `f` would start carries a tag for that order. */
  ghost predicate StaleTag(nodes: seq<Node>, f: nat, k: nat) {
    exists o: nat :: o < k && TagBelow(nodes, f, o)
  }

  ghost predicate TagBelow(nodes: seq<Node>, f: nat, o: nat) {
    TagAt(nodes, Down(f, o), o)
  }

  ghost predicate TagAt(nodes: seq<Node>, x: nat, o: nat) {
    x < |nodes| && nodes[x].tagged && nodes[x].order == o
  }

  /** Inside a free block the head test is the tag test. */
  lemma TagIsHead(state: seq<State>, nodes: seq<Node>, f: nat, o: nat, k: nat)
    requires |nodes| == |state| && f < |state| && FreeBlock(FreeSet(state), Down(f, k), k) && o <= k
    ensures IsFreeHead(state, nodes, Down(f, o), o) <==> TagAt(nodes, Down(f, o), o)
    ensures FreeBlock(FreeSet(state), Down(f, o), o) && f in Block(Down(f, o), o)
  {
    AlignedDown(f, o);
    DownBounds(f, o);
    DownBounds(f, k);
    assert InBlock(f, Down(f, o), o) && InBlock(f, Down(f, k), k);
    NestedBlocks(f, Down(f, o), o, Down(f, k), k);
    FreeBlockFits(state, Down(f, o), o);
  }

  lemma {:induction false} FirstHeadIs(state: seq<State>, nodes: seq<Node>, f: nat, o: nat, k: nat)
    requires |nodes| == |state| && f < |state| && FreeBlock(FreeSet(state), Down(f, k), k) && o <= k
    requires TagAt(nodes, Down(f, k), k)
    ensures FirstHead(state, nodes, f, o) == k <==> forall p: nat :: o <= p < k ==> !TagBelow(nodes, f, p)
    decreases k - o
  {
    TagIsHead(state, nodes, f, o, k);
    if o < k && !TagBelow(nodes, f, o) {
      FirstHeadIs(state, nodes, f, o + 1, k);
    }
  }

  /** `isolate` goes to the block that holds the frame exactly when no stale tag is in the way. */
  lemma IsolateExact(state: seq<State>, nodes: seq<Node>, heads: map<ListId, Option<nat>>, counts: map<ListId, nat>,
                     lists: Lists, trusted: set<nat>, f: nat, k: nat)
    requires Sound(state, nodes, heads, counts, lists, trusted, FreeSet(state))
    requires f < |state| && Maximal(FreeSet(state), Down(f, k), k)
    ensures FirstHead(state, nodes, f, 0) == k <==> !StaleTag(nodes, f, k)
  {
    assert |nodes| == |state| && TagAt(nodes, Down(f, k), k) by {
      MaximalIsHead(state, nodes, heads, counts, lists, trusted, FreeSet(state), Down(f, k), k);
    }
    FirstHeadIs(state, nodes, f, 0, k);
  }

  /** With every free frame trusted there is none. */
  lemma TrustedHasNoStaleTag(state: seq<State>, nodes: seq<Node>, heads: map<ListId, Option<nat>>,
                             counts: map<ListId, nat>,
                             lists: Lists, trusted: set<nat>, f: nat, k: nat)
    requires Sound(state, nodes, heads, counts, lists, trusted, FreeSet(state)) && FreeSet(state) <= trusted
    requires f < |state| && Maximal(FreeSet(state), Down(f, k), k)
    ensures !StaleTag(nodes, f, k)
  {
    if StaleTag(nodes, f, k) {
      var o: nat :| o < k && TagBelow(nodes, f, o);
      TagIsHead(state, nodes, f, o, k);
      TagIsHead(state, nodes, f, k, k);
      InParent(Down(f, o), o);
      var x := Down(f, o);
      assert Heads(FreeSet(state), x);
      var m: nat :| Maximal(FreeSet(state), x, m);
      assert Listed(lists, x, m);
      ListedOnce(nodes, heads, counts, lists, x, m);
      MaximalHead(FreeSet(state), x, m);
      NestedBlocks(f, x, o, Down(f, k), k);
      MaximalMeet(FreeSet(state), x, x, m, Down(f, k), k);
      assert false;
    }
  }

  /** The documented rule that only heads carry tags is needed: a frame inside a larger free
      block whose bytes look like its own order-0 tag sends `isolate` to a list it is not on. */
  lemma StaleTagMisleads(state: seq<State>, nodes: seq<Node>, heads: map<ListId, Option<nat>>, counts: map<ListId, nat>,
                         lists: Lists, trusted: set<nat>, f: nat, k: nat, prev: Option<nat>, next: Option<nat>)
    requires Sound(state, nodes, heads, counts, lists, trusted, FreeSet(state))
    requires f < |state| && Maximal(FreeSet(state), Down(f, k), k) && Down(f, k) != f
    ensures var nodes' := nodes[f := Node(true, 0, prev, next)];
      && Sound(state, nodes', heads, counts, lists, trusted - {f}, FreeSet(state))
      && FirstHead(state, nodes', f, 0) == 0 && !Listed(lists, f, 0)
  {
    TagIsHead(state, nodes, f, 0, k);
    TagIsHead(state, nodes, f, k, k);
    var nodes' := nodes[f := Node(true, 0, prev, next)];
    forall m
      ensures !Listed(lists, f, m)
    {
      if Listed(lists, f, m) {
        MaximalHead(FreeSet(state), f, m);
        MaximalMeet(FreeSet(state), f, f, m, Down(f, k), k);
      }
    }
    WriteSound(state, nodes, heads, counts, lists, trusted, FreeSet(state), f, Node(true, 0, prev, next));
    TagIsHead(state, nodes', f, 0, k);
  }

  /** Writing to a frame that heads no listed block leaves the lists alone. */
  lemma WriteSound(state: seq<State>, nodes: seq<Node>, heads: map<ListId, Option<nat>>, counts: map<ListId, nat>,
                   lists: Lists, trusted: set<nat>, free: set<nat>, f: nat, node: Node)
    requires Sound(state, nodes, heads, counts, lists, trusted, free) && f < |nodes| && forall m :: !Listed(lists, f, m)
    ensures Sound(state, nodes[f := node], heads, counts, lists, trusted - {f}, free)
    ensures !node.tagged ==> Sound(state, nodes[f := node], heads, counts, lists, trusted + {f}, free)
  {
    var nodes' := nodes[f := node];
    forall id | ValidId(id)
      ensures ListOk(nodes', heads[id], counts[id], id, lists[id])
    {
      assert ListOk(nodes, heads[id], counts[id], id, lists[id]);
      forall g | g in lists[id]
        ensures g < |nodes| && nodes'[g] == nodes[g]
      {
        ListedZone(nodes, id, lists[id], g);
        assert g == f ==> Listed(lists, f, id.order);
      }
      LinkedFrame(nodes, nodes', id, lists[id]);
    }
  }

  lemma Cover(free: set<nat>, f: nat) returns (g: nat, k: nat)
    requires f in free
    ensures Maximal(free, g, k) && g == Down(f, k) && f in Block(g, k)
  {
    SingleBlock(f);
    g, k := Enclosing(free, f, 0);
  }

  /** Which half the frame is in, and the other half to put back. */
  lemma IsolateStep(free: set<nat>, h: nat, c: nat, f: nat) returns (keep: nat, back: nat)
    requires FreeBlock(free, h, c + 1) && f in Block(h, c + 1)
    ensures f >= h + Pow2(c) ==> keep == h + Pow2(c) && back == h
    ensures f < h + Pow2(c) ==> keep == h && back == h + Pow2(c)
    ensures FreeBlock(free, keep, c) && f in Block(keep, c) && free - Block(keep, c) <= free
    ensures Adds(free - Block(h, c + 1), free - Block(keep, c), back, c)
  {
    keep, back := h, h + Pow2(c);
    if f >= h + Pow2(c) {
      keep, back := back, keep;
    }
    Halves(h, c);
    SplitBlock(h, c);
    HalfAdds(free, h, c, keep, back);
  }

  // ---- empty lists ----------------------------------------------------------------------------------------

  /** Every list mapped to `v`. */
  function Filled<T>(k: nat, v: T): (m: map<ListId, T>)
    ensures forall id :: ValidId(id) && Before(id, k) ==> id in m
    ensures forall id :: id in m ==> m[id] == v
  {
    if k == 0 then map[] else
      assert forall id {:trigger Before(id, k)} :: ValidId(id) && Before(id, k) ==>
          Before(id, k - 1) || IdAt(k - 1) == id;
      Filled(k - 1, v)[IdAt(k - 1) := v]
  }

  lemma {:induction false} EmptyWeight(lists: Lists, k: nat)
    requires forall id :: id in lists ==> lists[id] == []
    ensures Weight(lists, k) == 0
  {
    if k > 0 {
      EmptyWeight(lists, k - 1);
    }
  }

  lemma EmptySound(state: seq<State>, nodes: seq<Node>)
    requires |nodes| == |state|
    ensures Sound(state, nodes, Filled(LISTS, None), Filled(LISTS, 0), Filled(LISTS, []), UntaggedFrames(nodes), {})
  {
    var lists: Lists := Filled(LISTS, []);
    assert forall id :: ValidId(id) ==> Before(id, LISTS);
    EmptyWeight(lists, LISTS);
    forall f: nat, o: nat
      ensures !Listed(lists, f, o) && !Maximal({}, f, o)
    {
      if Maximal({}, f, o) {
        MaximalHead({}, f, o);
      }
    }
  }

  ghost function UntaggedFrames(nodes: seq<Node>): set<nat> {
    set x: nat | x < |nodes| && !nodes[x].tagged
  }

  lemma BelowNext(state: seq<State>, c: nat)
    requires c < |state| && state[c] != Free
    ensures Below(FreeSet(state), c + 1) == Below(FreeSet(state), c)
  {
  }

  lemma BelowAll(state: seq<State>)
    ensures Below(FreeSet(state), |state|) == FreeSet(state) && Below(FreeSet(state), 0) == {}
  {
  }

  /** Reserved frames of `a .. b` are free now; no other state changed. */
  ghost predicate Unreserved(was: seq<State>, now: seq<State>, a: nat, b: nat) {
    |now| == |was| &&
    forall x: nat :: x < |was| ==> now[x] == if a <= x < b && was[x] == Reserved then Free else was[x]
  }

  /** Free frames of `a .. b` have state `s` now; no other state changed. */
  ghost predicate Claimed(was: seq<State>, now: seq<State>, a: nat, b: nat, s: State) {
    |now| == |was| &&
    forall x: nat :: x < |was| ==> now[x] == if a <= x < b && was[x] == Free then s else was[x]
  }

  // ---- the bitmap determines the lists ----------------------------------------------------------------------

  lemma {:induction false} DistinctSize(nodes: seq<Node>, id: ListId, l: seq<nat>, n: nat) returns (members: set<nat>)
    requires Linked(nodes, id, l) && n <= |l|
    ensures |members| == n && forall x :: x in members <==> x in l[..n]
  {
    if n == 0 {
      return {};
    }
    var rest := DistinctSize(nodes, id, l, n - 1);
    LastIsNew(nodes, id, l, n - 1);
    members := rest + {l[n - 1]};
  }

  lemma LastIsNew(nodes: seq<Node>, id: ListId, l: seq<nat>, i: nat)
    requires Linked(nodes, id, l) && i < |l|
    ensures l[i] !in l[..i]
    ensures forall x :: x in l[..i + 1] <==> x in l[..i] || x == l[i]
  {
    assert l[..i + 1] == l[..i] + [l[i]];
    if l[i] in l[..i] {
      var j :| 0 <= j < i && l[j] == l[i];
      Acyclic(nodes, id, l, j, i);
    }
  }

  /** Whatever the two histories, equal bitmaps have equal lists up to order: splitting and
      merging step by step gives what a fresh `build` gives. */
  lemma SameBitmapSameLists(state: seq<State>, id: ListId,
                            nodes1: seq<Node>, heads1: map<ListId, Option<nat>>, counts1: map<ListId, nat>,
                                lists1: Lists, trusted1: set<nat>,
                            nodes2: seq<Node>, heads2: map<ListId, Option<nat>>, counts2: map<ListId, nat>,
                                lists2: Lists, trusted2: set<nat>)
    requires Sound(state, nodes1, heads1, counts1, lists1, trusted1, FreeSet(state)) && ValidId(id)
    requires Sound(state, nodes2, heads2, counts2, lists2, trusted2, FreeSet(state))
    ensures forall f :: f in lists1[id] <==> f in lists2[id]
    ensures counts1[id] == counts2[id]
  {
    assert ListOk(nodes1, heads1[id], counts1[id], id, lists1[id]);
    assert ListOk(nodes2, heads2[id], counts2[id], id, lists2[id]);
    var (l1, l2) := (lists1[id], lists2[id]);
    forall f
      ensures f in l1 <==> f in l2
    {
      if f in l1 {
        ListedZone(nodes1, id, l1, f);
        assert Listed(lists1, f, id.order) && Listed(lists2, f, id.order);
      }
      if f in l2 {
        ListedZone(nodes2, id, l2, f);
        assert Listed(lists2, f, id.order) && Listed(lists1, f, id.order);
      }
    }
    var m1 := DistinctSize(nodes1, id, l1, |l1|);
    var m2 := DistinctSize(nodes2, id, l2, |l2|);
    assert l1[..|l1|] == l1 && l2[..|l2|] == l2;
    assert m1 == m2;
  }

  lemma {:induction false} SubsetSize(s: set<nat>, n: nat)
    requires forall x :: x in s ==> x < n
    ensures |s| <= n
  {
    if n > 0 {
      SubsetSize(s - {n - 1}, n - 1);
    } else {
      assert s == {};
    }
  }

  lemma {:induction false} FramesIs(n: nat, o: nat)
    ensures Frames(n, o) == n * Pow2(o) && Frames(n, o) >= n
  {
    if n > 0 {
      FramesIs(n - 1, o);
    }
  }

  lemma {:induction false} WeightBounds(lists: Lists, id: ListId, k: nat)
    requires ValidId(id) && Before(id, k) && id in lists
    ensures |lists[id]| <= Weight(lists, k)
  {
    IdAtBefore(id, k - 1);
    if IdAt(k - 1) == id {
      FramesIs(|lists[id]|, id.order);
    } else {
      WeightBounds(lists, id, k - 1);
    }
  }

  /** Where a walk of the list stands after `i` blocks. */
  ghost predicate WalkedTo(l: seq<nat>, i: nat, previous: Option<nat>, current: Option<nat>) {
    && i <= |l| && previous == (if i == 0 then None else Some(l[i - 1]))
    && current == (if i == |l| then None else Some(l[i]))
  }

  /** A block as `validate` wants it. */
  ghost predicate BlockListed(state: seq<State>, nodes: seq<Node>, f: nat, id: ListId, previous: Option<nat>)
    requires |nodes| == |state|
  {
    && AlignedAt(f, id.order) && ZoneOf(f) == id.zone && f + Pow2(id.order) <= |state|
    && (forall x :: f <= x < f + Pow2(id.order) ==> state[x] == Free)
    && nodes[f].tagged && nodes[f].order == id.order && nodes[f].prev == previous
  }

  // ---- searching between bounds ----------------------------------------------------------------------------

  const PAGE_SIZE: nat := 4096

  /** The block lies between the physical addresses. */
  predicate Fits(f: nat, o: nat, min: nat, max: nat) {
    f * PAGE_SIZE >= min && (f + Pow2(o)) * PAGE_SIZE <= max
  }

  /** `zones_for`. */
  function ZonesFor(min: nat, max: nat): seq<nat> {
    if max <= DMA32_FRAMES * PAGE_SIZE then [0] else if min >= DMA32_FRAMES * PAGE_SIZE then [1] else [1, 0]
  }

  lemma ZonesCover(f: nat, o: nat, min: nat, max: nat)
    requires Fits(f, o, min, max)
    ensures ZoneOf(f) in ZonesFor(min, max)
  {
  }
}
