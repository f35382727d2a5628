/** The buddy allocator itself: the operations over the bitmap and the free lists.

    Every operation keeps `Sound` for the set of frames the bitmap calls free, so after any
    history the lists hold exactly the maximal free blocks and their counts add up to the
    number of free frames.
  */
module BuddyAllocator {
  import opened Outcomes
  import opened Dyadic
  import opened FreeBlocks
  import opened BuddyLists
  import opened BuddySoundness
  import opened BuddyValidation

  class Allocator {
    var state: seq<State>
    var nodes: seq<Node>
    var heads: map<ListId, Option<nat>>
    var counts: map<ListId, nat>
    ghost var lists: Lists
    /** Frames whose first bytes no owner has filled with a head tag. */
    ghost var trusted: set<nat>

    /** The lists hold the maximal blocks of `free`, a part of what the bitmap calls free. */
    ghost predicate Holds(free: set<nat>)
      reads this
    {
      Sound(state, nodes, heads, counts, lists, trusted, free)
    }

    ghost predicate Valid()
      reads this
    {
      Holds(FreeSet(state))
    }

    method Push(f: nat, o: nat, ghost less: set<nat>, ghost more: set<nat>)
      requires Holds(less) && Adds(less, more, f, o) && more <= FreeSet(state)
      modifies this`nodes, this`heads, this`counts, this`lists
      ensures Holds(more) && Untouched(old(nodes), nodes, less + {f})
    {
      var id := ListId(ZoneOf(f), o);
      PushSound(state, nodes, heads, counts, lists, trusted, less, more, id, f);
      PushWrites(state, nodes, heads, counts, lists, trusted, less, id, f);
      var head := heads[id];
      nodes := nodes[f := Node(true, o, None, head)];
      if head.Some? {
        nodes := nodes[head.value := nodes[head.value].(prev := Some(f))];
      }
      heads := heads[id := Some(f)];
      counts := counts[id := counts[id] + 1];
      lists := lists[id := [f] + lists[id]];
    }

    method Unlink(f: nat, o: nat, ghost less: set<nat>, ghost more: set<nat>)
      requires Holds(more) && Adds(less, more, f, o) && less <= more
      modifies this`nodes, this`heads, this`counts, this`lists
      ensures Holds(less) && Untouched(old(nodes), nodes, less + {f})
    {
      var id := ListId(ZoneOf(f), o);
      ghost var i := UnlinkSound(state, nodes, heads, counts, lists, trusted, less, more, id, f);
      UnlinkWrites(state, nodes, heads, counts, lists, trusted, less, more, id, f, i);
      var prev, next := nodes[f].prev, nodes[f].next;
      if prev.None? {
        heads := heads[id := next];
      } else {
        nodes := nodes[prev.value := nodes[prev.value].(next := next)];
      }
      if next.Some? {
        nodes := nodes[next.value := nodes[next.value].(prev := prev)];
      }
      nodes := nodes[f := nodes[f].(tagged := false)];
      counts := counts[id := counts[id] - 1];
      lists := lists[id := Dropped(lists[id], i)];
    }

    /** Put a block of free frames on the lists, merged with its buddies as far as they are free. */
    method CoalesceAndPush(f: nat, o: nat)
      requires FreeBlock(FreeSet(state), f, o) && Holds(FreeSet(state) - Block(f, o))
      modifies this`nodes, this`heads, this`counts, this`lists
      ensures Valid() && Untouched(old(nodes), nodes, FreeSet(state) - Block(f, o) + {f})
    {
      ghost var free, rest := FreeSet(state), FreeSet(state) - Block(f, o);
      var frame, order := f, o;
      while order < MAX_ORDER
        invariant FreeBlock(free, frame, order) && Holds(free - Block(frame, order))
        invariant Untouched(old(nodes), nodes, rest) && Block(f, o) <= Block(frame, order) && frame in rest + {f}
        decreases MAX_ORDER - order
      {
        BuddyIsSibling(frame, order);
        var buddy := Buddy(frame, order);
        BuddyTest(state, nodes, heads, counts, lists, trusted, frame, order, buddy);
        if !IsFreeHead(state, nodes, buddy, order) {
          break;
        }
        ghost var before, wider := nodes, free - Block(frame, order);
        frame, order := Merge(frame, order, buddy);
        UntouchedTwice(old(nodes), before, nodes, rest, wider, rest);
      }
      WholeAdds(free, frame, order);
      ghost var before := nodes;
      Push(frame, order, free - Block(frame, order), free);
      UntouchedTwice(old(nodes), before, nodes, rest, free - Block(frame, order) + {frame}, rest + {f});
    }

    method Merge(f: nat, o: nat, b: nat) returns (frame: nat, order: nat)
      requires FreeBlock(FreeSet(state), f, o) && Holds(FreeSet(state) - Block(f, o)) && o < MAX_ORDER
      requires b == Buddy(f, o)
      requires FreeBlock(FreeSet(state), Down(f, o + 1), o + 1)
      modifies this`nodes, this`heads, this`counts, this`lists
      ensures order == o + 1 && FreeBlock(FreeSet(state), frame, order) && Holds(FreeSet(state) - Block(frame, order))
      ensures Untouched(old(nodes), nodes, FreeSet(state) - Block(f, o))
      ensures Block(f, o) <= Block(frame, order) && (frame == f || frame in FreeSet(state) - Block(f, o))
    {
      ghost var free := FreeSet(state);
      frame := if f < b then f else b;
      order := o + 1;
      ghost var less, more := free - Block(frame, order), free - Block(f, o);
      MergeReady(free, f, o, b, frame, less, more);
      Unlink(b, o, less, more);
      UntouchedMore(old(nodes), nodes, less + {b}, more);
    }

    method Mark(f: nat, n: nat, s: State)
      requires f + n <= |state|
      modifies this`state
      ensures Marked(old(state), state, f, n, s)
    {
      var i := 0;
      while i < n
        invariant i <= n && Marked(old(state), state, f, i, s)
      {
        state := state[f + i := s];
        i := i + 1;
      }
    }

    method RangeIs(f: nat, n: nat, s: State) returns (all: bool)
      requires f + n <= |state|
      ensures all <==> forall x :: f <= x < f + n ==> state[x] == s
    {
      var i := f;
      while i < f + n
        invariant f <= i <= f + n && forall x :: f <= x < i ==> state[x] == s
      {
        if state[i] != s {
          return false;
        }
        i := i + 1;
      }
      return true;
    }

    /** The smallest order from `o` up with a block listed in the zone. */
    method SmallestSource(zone: nat, o: nat) returns (source: nat)
      requires Valid() && zone < ZONES && o <= MAX_ORDER
      ensures o <= source <= MAX_ORDER + 1 && NoBlock(FreeSet(state), zone, o, source)
      ensures source <= MAX_ORDER ==> lists[ListId(zone, source)] != []
    {
      source := o;
      while source <= MAX_ORDER && heads[ListId(zone, source)].None?
        invariant o <= source <= MAX_ORDER + 1 && NoBlock(FreeSet(state), zone, o, source)
      {
        EmptyList(FreeSet(state), zone, o, source);
        source := source + 1;
      }
      if source <= MAX_ORDER {
        ghost var id := ListId(zone, source);
        assert ListOk(nodes, heads[id], counts[id], id, lists[id]);
      }
    }

    lemma EmptyList(free: set<nat>, zone: nat, o: nat, source: nat)
      requires Holds(free) && zone < ZONES && source <= MAX_ORDER && NoBlock(free, zone, o, source)
      requires heads[ListId(zone, source)].None?
      ensures NoBlock(free, zone, o, source + 1)
    {
      var id := ListId(zone, source);
      assert ListOk(nodes, heads[id], counts[id], id, lists[id]);
      forall g: nat, k: nat | Maximal(free, g, k) && o <= k < source + 1
        ensures ZoneOf(g) != zone
      {
        assert Listed(lists, g, k);
      }
    }

    lemma ListHead(free: set<nat>, id: ListId)
      requires Holds(free) && ValidId(id) && lists[id] != []
      ensures heads[id] == Some(lists[id][0]) && Maximal(free, lists[id][0], id.order)
      ensures ZoneOf(lists[id][0]) == id.zone
    {
      assert ListOk(nodes, heads[id], counts[id], id, lists[id]);
      var f := lists[id][0];
      assert NodeAt(lists[id], 0, id.order).tagged && ZoneOf(f) == id.zone;
      assert Listed(lists, f, id.order);
    }

    method TakeOut(f: nat, o: nat)
      requires Valid() && Maximal(FreeSet(state), f, o)
      modifies this`nodes, this`heads, this`counts, this`lists
      ensures Holds(FreeSet(state) - Block(f, o)) && Untouched(old(nodes), nodes, FreeSet(state))
    {
      ghost var free := FreeSet(state);
      WholeAdds(free, f, o);
      MaximalHead(free, f, o);
      Unlink(f, o, free - Block(f, o), free);
    }

    /** Cut a listed block down to order `o`, its upper halves going back on the lists. */
    method Split(f: nat, source: nat, o: nat)
      requires Valid() && Maximal(FreeSet(state), f, source) && o <= source
      modifies this`nodes, this`heads, this`counts, this`lists
      ensures FreeBlock(FreeSet(state), f, o) && Holds(FreeSet(state) - Block(f, o))
      ensures Untouched(old(nodes), nodes, FreeSet(state))
    {
      ghost var free := FreeSet(state);
      TakeOut(f, source);
      var current := source;
      while current > o
        invariant o <= current <= source && FreeBlock(free, f, current) && Holds(free - Block(f, current))
        invariant Untouched(old(nodes), nodes, free)
      {
        current := current - 1;
        SplitOne(f, current);
      }
    }

    method SplitOne(f: nat, c: nat)
      requires FreeBlock(FreeSet(state), f, c + 1) && Holds(FreeSet(state) - Block(f, c + 1))
      modifies this`nodes, this`heads, this`counts, this`lists
      ensures FreeBlock(FreeSet(state), f, c) && Holds(FreeSet(state) - Block(f, c))
      ensures Untouched(old(nodes), nodes, FreeSet(state))
    {
      ghost var free := FreeSet(state);
      LowerHalf(free, f, c);
      UpperIn(free, f, c);
      Push(f + Pow2(c), c, free - Block(f, c + 1), free - Block(f, c));
    }

    /** `allocate`: fails exactly when no aligned block of that order is free in the zones. */
    method Allocate(o: nat, zones: seq<nat>) returns (r: Option<nat>)
      requires Valid() && forall i :: 0 <= i < |zones| ==> zones[i] < ZONES
      modifies this`state, this`nodes, this`heads, this`counts, this`lists
      ensures Valid()
      ensures r.None? ==>
            state == old(state) && forall g: nat :: FreeBlock(FreeSet(state), g, o) ==> ZoneOf(g) !in zones
      ensures r.Some? ==> FreeBlock(FreeSet(old(state)), r.value, o) && Chosen(FreeSet(old(state)), zones, o, r.value)
      ensures r.Some? ==> Marked(old(state), state, r.value, Pow2(o), Allocated)
      ensures Untouched(old(nodes), nodes, FreeSet(old(state)))
    {
      if o > MAX_ORDER {
        return None;
      }
      ghost var free := FreeSet(state);
      var j := 0;
      while j < |zones|
        invariant j <= |zones| && Valid() && state == old(state) && nodes == old(nodes)
        invariant forall i :: 0 <= i < j ==> NoBlock(free, zones[i], o, MAX_ORDER + 1)
      {
        var source := SmallestSource(zones[j], o);
        if source <= MAX_ORDER {
          var head := AllocateFrom(zones[j], source, o);
          assert ChosenAt(free, zones, o, head, j, source);
          return Some(head);
        }
        j := j + 1;
      }
      forall g: nat | FreeBlock(free, g, o)
        ensures ZoneOf(g) !in zones
      {
        if ZoneOf(g) in zones {
          var i :| 0 <= i < |zones| && zones[i] == ZoneOf(g);
          NoBlockAtAll(free, zones[i], o, g);
        }
      }
      return None;
    }

    method AllocateFrom(zone: nat, source: nat, o: nat) returns (head: nat)
      requires Valid() && zone < ZONES && o <= source <= MAX_ORDER && lists[ListId(zone, source)] != []
      modifies this`state, this`nodes, this`heads, this`counts, this`lists
      ensures Valid() && Maximal(FreeSet(old(state)), head, source) && ZoneOf(head) == zone
      ensures FreeBlock(FreeSet(old(state)), head, o) && Marked(old(state), state, head, Pow2(o), Allocated)
      ensures Untouched(old(nodes), nodes, FreeSet(old(state)))
    {
      ListHead(FreeSet(state), ListId(zone, source));
      head := heads[ListId(zone, source)].value;
      Split(head, source, o);
      FreeBlockFits(state, head, o);
      Mark(head, Pow2(o), Allocated);
      MarkedTaken(old(state), state, head, o, Allocated);
    }

    /** `release`: an aligned, wholly allocated block in range, or the error that says why not. */
    method Release(f: nat, o: nat) returns (r: Option<ReleaseError>)
      requires Valid()
      modifies this`state, this`nodes, this`heads, this`counts, this`lists
      ensures Valid()
      ensures r == ReleaseOutcome(old(state), f, o)
      ensures if r.None? then Marked(old(state), state, f, Pow2(o), Free) else state == old(state)
      ensures Untouched(old(nodes), nodes, FreeSet(old(state)) + if r.None? then {f} else {})
    {
      if o > MAX_ORDER {
        return Some(InvalidRange);
      }
      if f + Pow2(o) > |state| {
        return Some(OutOfRange);
      }
      if !AlignedAt(f, o) {
        return Some(Unaligned);
      }
      RangeSets(state, f, o);
      var all := RangeIs(f, Pow2(o), Reserved);
      if all {
        return Some(DuplicateRelease);
      }
      all := RangeIs(f, Pow2(o), Free);
      if all {
        return Some(DoubleFree);
      }
      all := RangeIs(f, Pow2(o), Allocated);
      if !all {
        return Some(InvalidRange);
      }
      AddBlock(f, o);
      return None;
    }

    /** Make an unlisted block free and list it, merged. */
    method AddBlock(f: nat, o: nat)
      requires Valid() && o <= MAX_ORDER && AlignedAt(f, o) && f + Pow2(o) <= |state|
      requires forall x: nat :: f <= x < f + Pow2(o) ==> state[x] != Free
      modifies this`state, this`nodes, this`heads, this`counts, this`lists
      ensures Valid() && Marked(old(state), state, f, Pow2(o), Free)
      ensures Untouched(old(nodes), nodes, FreeSet(old(state)) + {f})
    {
      Mark(f, Pow2(o), Free);
      MarkedFree(old(state), state, f, o);
      CoalesceAndPush(f, o);
      assert FreeSet(state) - Block(f, o) <= FreeSet(old(state));
    }

    /** List a run, carved into the largest aligned blocks that fit. */
    method InsertRun(start: nat, end: nat)
      requires Run(state, start, end) && Holds(Below(FreeSet(state), start))
      modifies this`nodes, this`heads, this`counts, this`lists
      ensures Holds(Below(FreeSet(state), end)) && Untouched(old(nodes), nodes, FreeSet(state))
    {
      var frame := start;
      while frame < end
        invariant Carved(start, frame, end) && Holds(Below(FreeSet(state), frame))
        invariant Untouched(old(nodes), nodes, FreeSet(state))
      {
        var order := BlockOrder(frame, end);
        CarveNext(start, frame, end, order);
        CarveOne(start, frame, end, order);
        frame := frame + Pow2(order);
      }
    }

    method CarveOne(ghost start: nat, f: nat, ghost end: nat, o: nat)
      requires Run(state, start, end) && Carved(start, f, end) && LargestFit(f, end, o)
      requires Holds(Below(FreeSet(state), f))
      modifies this`nodes, this`heads, this`counts, this`lists
      ensures Holds(Below(FreeSet(state), f + Pow2(o))) && Untouched(old(nodes), nodes, FreeSet(state))
    {
      ghost var less, more := CarveAdds(state, start, f, end, o);
      assert Maximal(more, f, o);
      MaximalHead(more, f, o);
      Push(f, o, less, more);
      UntouchedMore(old(nodes), nodes, less + {f}, FreeSet(state));
    }

    /** `isolate`: the free frame leaves the lists, everything else stays on them. */
    method Isolate(f: nat) returns (ok: bool)
      requires Valid() && forall k: nat :: Maximal(FreeSet(state), Down(f, k), k) ==> !StaleTag(nodes, f, k)
      modifies this`nodes, this`heads, this`counts, this`lists
      ensures ok <==> f < |state| && state[f] == Free
      ensures if ok then Holds(FreeSet(state) - {f}) else Valid()
      ensures Untouched(old(nodes), nodes, FreeSet(state))
    {
      if f >= |state| || state[f] != Free {
        return false;
      }
      ghost var g, k := Cover(FreeSet(state), f);
      IsolateExact(state, nodes, heads, counts, lists, trusted, f, k);
      var order := FindHead(f);
      TakeOut(Down(f, order), order);
      Extract(f, Down(f, order), order);
      return true;
    }

    method FindHead(f: nat) returns (order: nat)
      requires |nodes| == |state|
      ensures order == FirstHead(state, nodes, f, 0)
    {
      order := 0;
      while order <= MAX_ORDER && !IsFreeHead(state, nodes, Down(f, order), order)
        invariant order <= MAX_ORDER + 1 && FirstHead(state, nodes, f, order) == FirstHead(state, nodes, f, 0)
      {
        order := order + 1;
      }
    }

    method Extract(f: nat, h: nat, order: nat)
      requires FreeBlock(FreeSet(state), h, order) && f in Block(h, order) && Holds(FreeSet(state) - Block(h, order))
      modifies this`nodes, this`heads, this`counts, this`lists
      ensures Holds(FreeSet(state) - {f}) && Untouched(old(nodes), nodes, FreeSet(state))
    {
      var head, current := h, order;
      while current > 0
        invariant Untouched(old(nodes), nodes, FreeSet(state))
        invariant FreeBlock(FreeSet(state), head, current) && f in Block(head, current)
        invariant Holds(FreeSet(state) - Block(head, current))
      {
        current := current - 1;
        head := ExtractOne(f, head, current);
      }
      SingleBlock(head);
    }

    method ExtractOne(f: nat, h: nat, c: nat) returns (head: nat)
      requires FreeBlock(FreeSet(state), h, c + 1) && f in Block(h, c + 1) && Holds(FreeSet(state) - Block(h, c + 1))
      modifies this`nodes, this`heads, this`counts, this`lists
      ensures FreeBlock(FreeSet(state), head, c) && f in Block(head, c) && Holds(FreeSet(state) - Block(head, c))
      ensures Untouched(old(nodes), nodes, FreeSet(state))
    {
      ghost var free := FreeSet(state);
      ghost var keep, back := IsolateStep(free, h, c, f);
      UpperIn(free, h, c);
      assert h in Block(h, c + 1);
      var upper := h + Pow2(c);
      if f >= upper {
        Push(h, c, free - Block(h, c + 1), free - Block(keep, c));
        head := upper;
      } else {
        Push(upper, c, free - Block(h, c + 1), free - Block(keep, c));
        head := h;
      }
    }

    /** Any bitmap over any memory contents. */
    constructor (bitmap: seq<State>, memory: seq<Node>)
      requires |memory| == |bitmap|
      ensures state == bitmap && Valid() && trusted == UntaggedFrames(memory)
      ensures Untouched(memory, nodes, FreeSet(state))
    {
      state, nodes := bitmap, memory;
      new;
      Build();
    }

    /** `build`: whatever the lists were, they become those of the bitmap. */
    method Build()
      requires |nodes| == |state|
      modifies this`nodes, this`heads, this`counts, this`lists, this`trusted
      ensures Valid() && trusted == UntaggedFrames(old(nodes)) && Untouched(old(nodes), nodes, FreeSet(state))
    {
      heads, counts, lists := Filled(LISTS, None), Filled(LISTS, 0), Filled(LISTS, []);
      trusted := UntaggedFrames(nodes);
      EmptySound(state, nodes);
      BelowAll(state);
      var frame := 0;
      while frame < |state|
        invariant frame <= |state| && Holds(Below(FreeSet(state), frame)) && trusted == UntaggedFrames(old(nodes))
        invariant 0 < frame < |state| && state[frame] == Free ==> state[frame - 1] != Free
        invariant Untouched(old(nodes), nodes, FreeSet(state))
      {
        if state[frame] != Free {
          BelowNext(state, frame);
          frame := frame + 1;
        } else {
          var end := RunEnd(frame, |state|, Free);
          InsertRun(frame, end);
          frame := end;
        }
      }
    }

    /** Where the run of frames in state `s` from `start` ends. */
    method RunEnd(start: nat, limit: nat, s: State) returns (end: nat)
      requires start <= limit <= |state|
      ensures start <= end <= limit && (forall x :: start <= x < end ==> state[x] == s)
      ensures end < limit ==> state[end] != s
    {
      end := start;
      while end < limit && state[end] == s
        invariant start <= end <= limit && forall x :: start <= x < end ==> state[x] == s
      {
        end := end + 1;
      }
    }

    /** `insert_reserved_range`. */
    method InsertReservedRange(f: nat, last: nat)
      requires Valid()
      modifies this`state, this`nodes, this`heads, this`counts, this`lists
      ensures Valid() && Unreserved(old(state), state, f, last) && Untouched(old(nodes), nodes, FreeSet(state))
    {
      var end := if last <= |state| then last else |state|;
      var index := f;
      while index < end
        invariant Valid() && Unreserved(old(state), state, f, index) && Untouched(old(nodes), nodes, FreeSet(state))
        invariant if f <= end then index <= end else index == f
      {
        if state[index] == Reserved {
          var start := index;
          index := RunEnd(start, end, Reserved);
          AddRun(start, index);
        } else {
          index := index + 1;
        }
      }
    }

    method AddRun(start: nat, end: nat)
      requires Valid() && start <= end <= |state| && forall x :: start <= x < end ==> state[x] != Free
      modifies this`state, this`nodes, this`heads, this`counts, this`lists
      ensures Valid() && Marked(old(state), state, start, end - start, Free)
      ensures Untouched(old(nodes), nodes, FreeSet(state)) && FreeSet(old(state)) <= FreeSet(state)
    {
      var cursor := start;
      while cursor < end
        invariant start <= cursor <= end && Valid() && RunAdded(old(state), state, old(nodes), nodes, start, cursor)
      {
        cursor := AddNext(old(state), old(nodes), start, cursor, end);
      }
    }

    /** The largest aligned block that fits comes next. */
    method AddNext(ghost was: seq<State>, ghost before: seq<Node>, ghost start: nat, f: nat, end: nat)
      returns (next: nat)
      requires Valid() && start <= f < end <= |was| && RunAdded(was, state, before, nodes, start, f)
      requires forall x :: start <= x < end ==> was[x] != Free
      modifies this`state, this`nodes, this`heads, this`counts, this`lists
      ensures f < next <= end && Valid() && RunAdded(was, state, before, nodes, start, next)
    {
      var order := BlockOrder(f, end);
      ghost var mid, free := nodes, FreeSet(state);
      AddBlock(f, order);
      next := f + Pow2(order);
      assert state[f] == Free && free <= FreeSet(state);
      UntouchedTwice(before, mid, nodes, free, free + {f}, FreeSet(state));
    }

    /** The owner of a frame that is not free writes to it. */
    method OwnerWrites(f: nat, node: Node)
      requires Valid() && f < |state| && state[f] != Free
      modifies this`nodes, this`trusted
      ensures Valid() && trusted == if node.tagged then old(trusted) - {f} else old(trusted) + {f}
      ensures nodes == old(nodes)[f := node]
    {
      forall m
        ensures !Listed(lists, f, m)
      {
        if Listed(lists, f, m) {
          MaximalHead(FreeSet(state), f, m);
        }
      }
      WriteSound(state, nodes, heads, counts, lists, trusted, FreeSet(state), f, node);
      nodes := nodes[f := node];
      trusted := if node.tagged then trusted - {f} else trusted + {f};
    }

    /** Take free frames one by one for `s`: the loops of `reserve` and `allocate_scan`. */
    method Claim(a: nat, b: nat, s: State)
      requires Valid() && FreeSet(state) <= trusted && a <= b <= |state| && s != Free
      modifies this`state, this`nodes, this`heads, this`counts, this`lists
      ensures Valid() && FreeSet(state) <= trusted && Claimed(old(state), state, a, b, s)
      ensures Untouched(old(nodes), nodes, FreeSet(old(state)))
    {
      var f := a;
      while f < b
        invariant a <= f <= b && Valid() && FreeSet(state) <= trusted && Claimed(old(state), state, a, f, s)
        invariant Untouched(old(nodes), nodes, FreeSet(old(state))) && FreeSet(state) <= FreeSet(old(state))
      {
        if state[f] == Free {
          ClaimOne(f, s);
        }
        f := f + 1;
      }
    }

    method ClaimOne(f: nat, s: State)
      requires Valid() && FreeSet(state) <= trusted && f < |state| && state[f] == Free && s != Free
      modifies this`state, this`nodes, this`heads, this`counts, this`lists
      ensures Valid() && FreeSet(state) <= trusted && state == old(state)[f := s]
      ensures Untouched(old(nodes), nodes, FreeSet(old(state))) && FreeSet(state) <= FreeSet(old(state))
    {
      forall k: nat | Maximal(FreeSet(state), Down(f, k), k)
        ensures !StaleTag(nodes, f, k)
      {
        TrustedHasNoStaleTag(state, nodes, heads, counts, lists, trusted, f, k);
      }
      var ok := Isolate(f);
      state := state[f := s];
      assert FreeSet(state) == FreeSet(old(state)) - {f};
    }

    /** The first aligned free block from `from` (aligned) before `to`, ending by `high`. */
    method FindRun(from: nat, to: nat, high: nat, o: nat) returns (r: Option<nat>)
      requires |nodes| == |state| && AlignedAt(from, o) && high <= |state| && o <= MAX_ORDER
      ensures r.Some? ==> from <= r.value < to && r.value + Pow2(o) <= high && FreeBlock(FreeSet(state), r.value, o)
      ensures r.None? ==> forall g: nat :: FreeBlock(FreeSet(state), g, o) && from <= g < to ==> g + Pow2(o) > high
    {
      var f := from;
      while f < to
        invariant AlignedAt(f, o)
        invariant forall g: nat :: FreeBlock(FreeSet(state), g, o) && from <= g < to && g < f ==> g + Pow2(o) > high
      {
        if f + Pow2(o) <= high {
          RangeSets(state, f, o);
          var all := RangeIs(f, Pow2(o), Free);
          if all {
            return Some(f);
          }
        }
        forall g: nat | FreeBlock(FreeSet(state), g, o) && from <= g < to && g < f + Pow2(o)
          ensures g + Pow2(o) > high
        {
          if f < g {
            NextAligned(f, g, o);
          }
        }
        UpperAligned(f, o);
        f := f + Pow2(o);
      }
      return None;
    }

    /** `allocate_scan`: `cursor` is where the last search ended. */
    method Scan(o: nat, min: nat, max: nat, cursor: nat) returns (r: Option<nat>)
      requires Valid() && FreeSet(state) <= trusted && o <= MAX_ORDER
      modifies this`state, this`nodes, this`heads, this`counts, this`lists
      ensures Valid() && FreeSet(state) <= trusted
      ensures r.Some? ==> FreeBlock(FreeSet(old(state)), r.value, o) && Fits(r.value, o, min, max)
      ensures r.Some? ==> Marked(old(state), state, r.value, Pow2(o), Allocated)
      ensures r.None? ==>
            state == old(state) && forall g: nat :: FreeBlock(FreeSet(state), g, o) ==> !Fits(g, o, min, max)
      ensures Untouched(old(nodes), nodes, FreeSet(old(state)))
    {
      r := ScanFind(o, min, max, cursor);
      if r.Some? {
        RangeSets(state, r.value, o);
        Claim(r.value, r.value + Pow2(o), Allocated);
      }
    }

    method ScanFind(o: nat, min: nat, max: nat, cursor: nat) returns (r: Option<nat>)
      requires |nodes| == |state| && o <= MAX_ORDER
      ensures r.Some? ==>
            r.value + Pow2(o) <= |state| && FreeBlock(FreeSet(state), r.value, o) && Fits(r.value, o, min, max)
      ensures r.None? ==> forall g: nat :: FreeBlock(FreeSet(state), g, o) ==> !Fits(g, o, min, max)
    {
      var low := AlignUp((min + PAGE_SIZE - 1) / PAGE_SIZE, o);
      var high := if max / PAGE_SIZE <= |state| then max / PAGE_SIZE else |state|;
      forall g: nat | FreeBlock(FreeSet(state), g, o) && Fits(g, o, min, max)
        ensures low <= g && g + Pow2(o) <= high
      {
        AlignUpIs((min + PAGE_SIZE - 1) / PAGE_SIZE, o, g);
        FreeBlockFits(state, g, o);
      }
      AlignUpIs((min + PAGE_SIZE - 1) / PAGE_SIZE, o, 0);
      if low >= high || high - low < Pow2(o) {
        return None;
      }
      var start := AlignUp(if cursor < low then low else if cursor > high then high else cursor, o);
      AlignUpIs(if cursor < low then low else if cursor > high then high else cursor, o, 0);
      r := FindRun(start, high, high, o);
      if r.None? {
        r := FindRun(low, start, high, o);
      }
    }

    /** `allocate` between physical addresses: a block from the lists, or, when that one lies
        outside the bounds, given back and searched for. It fails exactly when no aligned free
        block of the order lies between the bounds. */
    method AllocateWithin(o: nat, min: nat, max: nat, cursor: nat) returns (r: Option<nat>)
      requires Valid() && FreeSet(state) <= trusted
      modifies this`state, this`nodes, this`heads, this`counts, this`lists
      ensures Valid() && FreeSet(state) <= trusted
      ensures r.Some? ==> FreeBlock(FreeSet(old(state)), r.value, o) && Fits(r.value, o, min, max)
      ensures r.Some? ==> Marked(old(state), state, r.value, Pow2(o), Allocated)
      ensures r.None? ==>
            state == old(state) && forall g: nat :: FreeBlock(FreeSet(state), g, o) ==> !Fits(g, o, min, max)
      ensures Untouched(old(nodes), nodes, FreeSet(old(state)))
    {
      r := Allocate(o, ZonesFor(min, max));
      if r.None? {
        forall g: nat | FreeBlock(FreeSet(state), g, o)
          ensures !Fits(g, o, min, max)
        {
          if Fits(g, o, min, max) {
            ZonesCover(g, o, min, max);
          }
        }
        return;
      }
      MarkedTaken(old(state), state, r.value, o, Allocated);
      if !Fits(r.value, o, min, max) {
        ghost var free, taken := FreeSet(old(state)), nodes;
        GiveBack(old(state), r.value, o);
        UntouchedTwice(old(nodes), taken, nodes, free, free, free);
        ghost var back := nodes;
        r := Scan(o, min, max, cursor);
        UntouchedTwice(old(nodes), back, nodes, free, free, free);
      }
    }

    /** Releasing a block just allocated restores the bitmap. */
    method GiveBack(ghost was: seq<State>, f: nat, o: nat)
      requires Valid() && FreeBlock(FreeSet(was), f, o) && Marked(was, state, f, Pow2(o), Allocated)
      modifies this`state, this`nodes, this`heads, this`counts, this`lists
      ensures Valid() && state == was && Untouched(old(nodes), nodes, FreeSet(was))
    {
      FreeBlockFits(was, f, o);
      RangeSets(was, f, o);
      RangeSets(state, f, o);
      assert f in Block(f, o) by {
        assert InBlock(f, f, o);
      }
      var error := Release(f, o);
      UntouchedMore(old(nodes), nodes, FreeSet(old(state)) + {f}, FreeSet(was));
    }

    /** `free_frames`: the counts add up to the free frames of the bitmap. */
    method FreeFrames() returns (total: nat)
      requires Valid()
      ensures total == |FreeSet(state)|
    {
      total := 0;
      var k := 0;
      while k < LISTS
        invariant k <= LISTS && total == Weight(lists, k)
      {
        CountWeighs(k);
        total := total + counts[IdAt(k)] * Pow2(IdAt(k).order);
        k := k + 1;
      }
    }

    lemma CountWeighs(k: nat)
      requires Valid() && k < LISTS
      ensures ValidId(IdAt(k)) && Weight(lists, k + 1) == Weight(lists, k) + counts[IdAt(k)] * Pow2(IdAt(k).order)
    {
      var id := IdAt(k);
      assert ListOk(nodes, heads[id], counts[id], id, lists[id]);
      FramesIs(counts[id], id.order);
    }

    /** `largest_order`: that of the largest free block. */
    method LargestOrder() returns (r: Option<nat>)
      requires Valid()
      ensures r.None? ==> FreeSet(state) == {}
      ensures r.Some? ==> exists f: nat :: FreeBlock(FreeSet(state), f, r.value)
      ensures r.Some? ==> forall f: nat, k: nat :: FreeBlock(FreeSet(state), f, k) ==> k <= r.value
    {
      var order := MAX_ORDER + 1;
      while order > 0
        invariant order <= MAX_ORDER + 1
        invariant forall f: nat, k: nat :: Maximal(FreeSet(state), f, k) ==> k < order
      {
        order := order - 1;
        if counts[ListId(0, order)] != 0 || counts[ListId(1, order)] != 0 {
          ghost var id := ListId(if counts[ListId(0, order)] != 0 then 0 else 1, order);
          assert ListOk(nodes, heads[id], counts[id], id, lists[id]);
          ListHead(FreeSet(state), id);
          assert FreeBlock(FreeSet(state), lists[id][0], order);
          forall f: nat, k: nat | FreeBlock(FreeSet(state), f, k)
            ensures k <= order
          {
            var g, m := Enclosing(FreeSet(state), f, k);
          }
          return Some(order);
        }
        NoneOfOrder(order);
      }
      if FreeSet(state) != {} {
        var f :| f in FreeSet(state);
        var g, k := Cover(FreeSet(state), f);
      }
      return None;
    }

    lemma NoneOfOrder(o: nat)
      requires Valid() && o <= MAX_ORDER && counts[ListId(0, o)] == 0 && counts[ListId(1, o)] == 0
      ensures forall f: nat :: !Maximal(FreeSet(state), f, o)
    {
      assert ListOk(nodes, heads[ListId(0, o)], counts[ListId(0, o)], ListId(0, o), lists[ListId(0, o)]);
      assert ListOk(nodes, heads[ListId(1, o)], counts[ListId(1, o)], ListId(1, o), lists[ListId(1, o)]);
      forall f: nat
        ensures !Maximal(FreeSet(state), f, o)
      {
        assert !Listed(lists, f, o);
      }
    }

    /** There are lists as `validate` wants them. */
    ghost predicate Acceptable()
      reads this
    {
      exists ls: Lists :: Checked(state, nodes, heads, counts, ls)
    }

    /** `validate`: walks every list against the bitmap. In any state, however damaged, it finds no
        fault exactly when the lists are acceptable; a valid state is. */
    method Validate() returns (fault: Option<string>)
      requires |nodes| == |state| && forall id :: ValidId(id) ==> id in heads && id in counts
      ensures fault.None? <==> Acceptable()
      ensures Valid() ==> fault.None?
    {
      if Valid() {
        SoundIsChecked(state, nodes, heads, counts, lists, trusted);
      }
      ghost var ls: Lists := lists;
      if Acceptable() {
        ls :| Checked(state, nodes, heads, counts, ls);
      }
      fault := WalkAll(ls);
    }

    method WalkAll(ghost ls: Lists) returns (fault: Option<string>)
      requires |nodes| == |state| && forall id :: ValidId(id) ==> id in heads && id in counts
      ensures fault.None? ==> Acceptable()
      ensures Checked(state, nodes, heads, counts, ls) ==> fault.None?
    {
      var listed, k := 0, 0;
      ghost var found: Lists := map[];
      while k < LISTS
        invariant k <= LISTS && listed == Weight(found, k) && Found(state, nodes, heads, counts, found, k)
        invariant Checked(state, nodes, heads, counts, ls) ==> listed == Weight(ls, k)
      {
        var frames;
        fault, frames, found := WalkNext(k, ls, found);
        if fault.Some? {
          return;
        }
        listed, k := listed + frames, k + 1;
      }
      var free := CountFree();
      if listed == free {
        FoundAll(state, nodes, heads, counts, found);
      }
      fault := if listed != free then Some("free lists do not cover every free frame") else None;
    }

    /** The next list: how many frames its blocks have. */
    method WalkNext(k: nat, ghost ls: Lists, ghost found: Lists)
      returns (fault: Option<string>, frames: nat, ghost found': Lists)
      requires |nodes| == |state| && k < LISTS && forall id :: ValidId(id) ==> id in heads && id in counts
      requires Found(state, nodes, heads, counts, found, k)
      ensures fault.None? ==> Found(state, nodes, heads, counts, found', k + 1)
      ensures fault.None? ==> Weight(found', k + 1) == Weight(found, k) + frames
      ensures Checked(state, nodes, heads, counts, ls) ==> fault.None? && Weight(ls, k + 1) == Weight(ls, k) + frames
    {
      var id := IdAt(k);
      var seen;
      ghost var l;
      fault, seen, l := Walk(id, ls);
      frames, found' := seen * Pow2(id.order), found[id := l];
      if fault.None? {
        FoundOne(state, nodes, heads, counts, found, k, l);
        FramesIs(seen, id.order);
      }
    }

    /** One list; `l` is what it was found to hold. */
    method Walk(id: ListId, ghost ls: Lists) returns (fault: Option<string>, seen: nat, ghost l: seq<nat>)
      requires |nodes| == |state| && ValidId(id) && forall id :: ValidId(id) ==> id in heads && id in counts
      ensures fault.None? ==> seen == |l| && ListOk(nodes, heads[id], counts[id], id, l)
      ensures fault.None? ==> forall f :: f in l ==> FreeBlock(FreeSet(state), f, id.order) && ZoneOf(f) == id.zone
      ensures Checked(state, nodes, heads, counts, ls) ==> fault.None? && seen == |ls[id]|
    {
      ghost var good := Checked(state, nodes, heads, counts, ls);
      assert good ==> ListOk(nodes, heads[id], counts[id], id, ls[id]);
      var previous: Option<nat>, current: Option<nat> := None, heads[id];
      fault, seen, l := None, 0, [];
      while current.Some?
        invariant good ==> WalkedTo(ls[id], seen, previous, current)
        invariant Followed(state, nodes, heads[id], id, l, previous, current)
        invariant seen == |l| && seen <= |state| && fault.None?
        decreases |state| - seen
      {
        if good {
          CheckedBlock(state, nodes, heads, counts, ls, id, seen);
        }
        seen := seen + 1;
        if seen > |state| {
          return Some("free list is cyclic"), seen, l;
        }
        fault := CheckBlock(current.value, id, previous);
        if fault.Some? {
          return;
        }
        FollowOne(state, nodes, heads[id], id, l, previous, current.value);
        l := l + [current.value];
        previous, current := current, nodes[current.value].next;
      }
      FollowedIsList(state, nodes, heads[id], id, l, previous);
      if seen != counts[id] {
        fault := Some("free list count mismatch");
      }
    }

    method CheckBlock(f: nat, id: ListId, previous: Option<nat>) returns (fault: Option<string>)
      requires |nodes| == |state|
      ensures fault.None? <==> BlockListed(state, nodes, f, id, previous)
    {
      if !AlignedAt(f, id.order) || ZoneOf(f) != id.zone {
        return Some("free block misaligned or in the wrong zone");
      }
      if f + Pow2(id.order) > |state| {
        return Some("listed block not free in the bitmap");
      }
      var free := RangeIs(f, Pow2(id.order), Free);
      if !free {
        return Some("listed block not free in the bitmap");
      }
      if !nodes[f].tagged || nodes[f].order != id.order {
        return Some("free block header corrupted");
      }
      if nodes[f].prev != previous {
        return Some("free list back link broken");
      }
      return None;
    }

    method CountFree() returns (n: nat)
      ensures n == |FreeSet(state)|
    {
      n := 0;
      var f := 0;
      assert Below(FreeSet(state), 0) == {};
      while f < |state|
        invariant f <= |state| && n == |Below(FreeSet(state), f)|
      {
        if state[f] == Free {
          assert Below(FreeSet(state), f + 1) == Below(FreeSet(state), f) + {f};
          n := n + 1;
        } else {
          BelowNext(state, f);
        }
        f := f + 1;
      }
      BelowAll(state);
    }
  }

  /** A stale tag comes about like this: the owner of two frames leaves bytes in the second that look
      like a tag, and releases both. The frames become one block, and looking for the second frame
      ends at itself, on a list that does not hold it. */
  method StaleTagReached() returns (a: Allocator)
    ensures fresh(a) && a.Valid() && FreeSet(a.state) == {0, 1}
    ensures FirstHead(a.state, a.nodes, 1, 0) == 0 && !Listed(a.lists, 1, 0) && Listed(a.lists, 0, 1)
  {
    var blank := Node(false, 0, None, None);
    a := new Allocator([Allocated, Allocated], [blank, blank]);
    a.OwnerWrites(1, Node(true, 0, None, None));
    PairReleases(a.state);
    ghost var was := a.state;
    var error := a.Release(0, 1);
    PairIsFree(was, a.state);
    TagMisleads(a.state, a.nodes, a.lists);
  }

  lemma PairReleases(state: seq<State>)
    requires state == [Allocated, Allocated]
    ensures ReleaseOutcome(state, 0, 1) == None && 1 !in FreeSet(state)
  {
    assert Pow2(1) == 2 && AlignedAt(0, 1);
    RangeSets(state, 0, 1);
    assert state[0] == Allocated && forall x :: 0 <= x < 2 ==> state[x] == Allocated;
  }

  lemma PairIsFree(was: seq<State>, state: seq<State>)
    requires |was| == 2 && Marked(was, state, 0, Pow2(1), Free)
    ensures state == [Free, Free]
  {
    assert Pow2(1) == 2;
  }

  lemma TagMisleads(state: seq<State>, nodes: seq<Node>, lists: Lists)
    requires state == [Free, Free] && |nodes| == 2 && nodes[1] == Node(true, 0, None, None)
    requires Indexes(lists, FreeSet(state))
    ensures FreeSet(state) == {0, 1} && FirstHead(state, nodes, 1, 0) == 0
    ensures !Listed(lists, 1, 0) && Listed(lists, 0, 1)
  {
    var free := FreeSet(state);
    assert free == {0, 1};
    assert Maximal(free, 0, 1) && !Maximal(free, 1, 0) by {
      PairIsBlock(free);
    }
    assert Down(1, 0) == 1;
  }

  lemma PairIsBlock(free: set<nat>)
    requires free == {0, 1}
    ensures Maximal(free, 0, 1) && !Maximal(free, 1, 0)
  {
    assert Pow2(1) == 2 && Pow2(2) == 4;
    assert Block(0, 1) == {0, 1};
    assert 2 in Block(0, 2);
  }
}
