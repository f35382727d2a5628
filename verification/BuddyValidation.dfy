/** What `validate` establishes about an allocator in any state: that its lists are well linked and
    counted, that they list free blocks, and that those have as many frames as are free. It does not
    see whether a listed block could be merged or overlaps another, so it accepts more states than
    the allocator can reach; it accepts no others exactly where every listed block is maximal.
  */
module BuddyValidation {
  import opened Outcomes
  import opened Dyadic
  import opened FreeBlocks
  import opened BuddyLists
  import opened BuddySoundness

  ghost predicate AllFree(lists: Lists, free: set<nat>) {
    forall f: nat, o: nat {:trigger Listed(lists, f, o)} :: Listed(lists, f, o) ==> FreeBlock(free, f, o)
  }

  ghost predicate AllMaximal(lists: Lists, free: set<nat>) {
    forall f: nat, o: nat {:trigger Listed(lists, f, o)} :: Listed(lists, f, o) ==> Maximal(free, f, o)
  }

  /** What `validate` checks. */
  ghost predicate Checked(state: seq<State>, nodes: seq<Node>, heads: map<ListId, Option<nat>>,
                          counts: map<ListId, nat>,
                          lists: Lists)
  {
    && |nodes| == |state| && Links(nodes, heads, counts, lists)
    && AllFree(lists, FreeSet(state)) && Weight(lists, LISTS) == |FreeSet(state)|
  }

  lemma SoundIsChecked(state: seq<State>, nodes: seq<Node>, heads: map<ListId, Option<nat>>, counts: map<ListId, nat>,
                       lists: Lists, trusted: set<nat>)
    requires Sound(state, nodes, heads, counts, lists, trusted, FreeSet(state))
    ensures Checked(state, nodes, heads, counts, lists)
  {
  }

  // ---- one list -----------------------------------------------------------------------------------------

  /** The blocks seen so far, from the head on; `current` comes next. */
  ghost predicate Followed(state: seq<State>, nodes: seq<Node>, head: Option<nat>, id: ListId, l: seq<nat>,
                           previous: Option<nat>, current: Option<nat>)
    requires |nodes| == |state|
  {
    && previous == (if l == [] then None else Some(l[|l| - 1])) && (if l == [] then current else Some(l[0])) == head
    && forall i {:trigger Stop(state, nodes, id, l, current, i)} :: 0 <= i < |l| ==>
        Stop(state, nodes, id, l, current, i)
  }

  ghost predicate Stop(state: seq<State>, nodes: seq<Node>, id: ListId, l: seq<nat>, current: Option<nat>, i: int)
    requires |nodes| == |state| && 0 <= i < |l|
  {
    && BlockListed(state, nodes, l[i], id, if i == 0 then None else Some(l[i - 1]))
    && nodes[l[i]].next == if i + 1 < |l| then Some(l[i + 1]) else current
  }

  lemma FollowOne(state: seq<State>, nodes: seq<Node>, head: Option<nat>, id: ListId, l: seq<nat>,
                  previous: Option<nat>, f: nat)
    requires |nodes| == |state| && Followed(state, nodes, head, id, l, previous, Some(f))
    requires BlockListed(state, nodes, f, id, previous)
    ensures Followed(state, nodes, head, id, l + [f], Some(f), nodes[f].next)
  {
    var l' := l + [f];
    forall i | 0 <= i < |l'|
      ensures Stop(state, nodes, id, l', nodes[f].next, i)
    {
      if i < |l| {
        assert Stop(state, nodes, id, l, Some(f), i);
      }
    }
  }

  lemma FollowedIsList(state: seq<State>, nodes: seq<Node>, head: Option<nat>, id: ListId, l: seq<nat>,
                       previous: Option<nat>)
    requires |nodes| == |state| && Followed(state, nodes, head, id, l, previous, None) && ValidId(id)
    ensures ListOk(nodes, head, |l|, id, l)
    ensures forall f :: f in l ==> FreeBlock(FreeSet(state), f, id.order) && ZoneOf(f) == id.zone
  {
    forall i | 0 <= i < |l|
      ensures l[i] < |nodes| && ZoneOf(l[i]) == id.zone && nodes[l[i]] == NodeAt(l, i, id.order)
      ensures FreeBlock(FreeSet(state), l[i], id.order)
    {
      assert Stop(state, nodes, id, l, None, i);
      RangeSets(state, l[i], id.order);
    }
  }

  /** A checked list is no longer than memory. */
  lemma CheckedFits(nodes: seq<Node>, id: ListId, l: seq<nat>)
    requires Linked(nodes, id, l)
    ensures |l| <= |nodes|
  {
    var members := DistinctSize(nodes, id, l, |l|);
    assert l[..|l|] == l;
    SubsetSize(members, |nodes|);
  }

  /** Each of its blocks passes. */
  lemma CheckedBlock(state: seq<State>, nodes: seq<Node>, heads: map<ListId, Option<nat>>, counts: map<ListId, nat>,
                     lists: Lists, id: ListId, i: nat)
    requires Checked(state, nodes, heads, counts, lists) && ValidId(id) && i < |lists[id]|
    ensures i + 1 <= |state|
    ensures BlockListed(state, nodes, lists[id][i], id, if i == 0 then None else Some(lists[id][i - 1]))
    ensures nodes[lists[id][i]].next == if i + 1 == |lists[id]| then None else Some(lists[id][i + 1])
  {
    var l := lists[id];
    assert ListOk(nodes, heads[id], counts[id], id, l);
    assert nodes[l[i]] == NodeAt(l, i, id.order) && ZoneOf(l[i]) == id.zone;
    assert Listed(lists, l[i], id.order);
    CheckedFits(nodes, id, l);
    FreeBlockFits(state, l[i], id.order);
    RangeSets(state, l[i], id.order);
  }

  // ---- all lists ----------------------------------------------------------------------------------------

  lemma {:induction false} WeightAhead(lists: Lists, j: nat, k: nat, l: seq<nat>)
    requires k <= j < LISTS
    ensures Weight(lists[IdAt(j) := l], k) == Weight(lists, k)
  {
    if k > 0 {
      WeightAhead(lists, j, k - 1, l);
      assert IdAt(k - 1) != IdAt(j);
    }
  }

  /** The lists found so far. */
  ghost predicate Found(state: seq<State>, nodes: seq<Node>, heads: map<ListId, Option<nat>>, counts: map<ListId, nat>,
                        lists: Lists, k: nat)
    requires forall id :: ValidId(id) ==> id in heads && id in counts
  {
    && forall id {:trigger Before(id, k)} :: ValidId(id) && Before(id, k) ==>
         && id in lists && ListOk(nodes, heads[id], counts[id], id, lists[id])
         && forall f :: f in lists[id] ==> FreeBlock(FreeSet(state), f, id.order) && ZoneOf(f) == id.zone
  }

  lemma FoundOne(state: seq<State>, nodes: seq<Node>, heads: map<ListId, Option<nat>>, counts: map<ListId, nat>,
                 lists: Lists, k: nat, l: seq<nat>)
    requires k < LISTS && forall id :: ValidId(id) ==> id in heads && id in counts
    requires Found(state, nodes, heads, counts, lists, k) && ValidId(IdAt(k))
    requires ListOk(nodes, heads[IdAt(k)], counts[IdAt(k)], IdAt(k), l)
    requires forall f :: f in l ==> FreeBlock(FreeSet(state), f, IdAt(k).order) && ZoneOf(f) == IdAt(k).zone
    ensures Found(state, nodes, heads, counts, lists[IdAt(k) := l], k + 1)
    ensures Weight(lists[IdAt(k) := l], k + 1) == Weight(lists, k) + |l| * Pow2(IdAt(k).order)
  {
    forall id | ValidId(id) && Before(id, k + 1)
      ensures Before(id, k) || id == IdAt(k)
      ensures Before(id, k) ==> id != IdAt(k)
    {
      IdAtBefore(id, k);
    }
    WeightAhead(lists, k, k, l);
    FramesIs(|l|, IdAt(k).order);
  }

  lemma FoundAll(state: seq<State>, nodes: seq<Node>, heads: map<ListId, Option<nat>>, counts: map<ListId, nat>,
                 lists: Lists)
    requires forall id :: ValidId(id) ==> id in heads && id in counts
    requires |nodes| == |state| && Found(state, nodes, heads, counts, lists, LISTS)
    requires Weight(lists, LISTS) == |FreeSet(state)|
    ensures Checked(state, nodes, heads, counts, lists)
  {
    assert forall id :: ValidId(id) ==> Before(id, LISTS);
    forall f: nat, o: nat | Listed(lists, f, o)
      ensures FreeBlock(FreeSet(state), f, o)
    {
      assert ValidId(ListId(ZoneOf(f), o)) && Before(ListId(ZoneOf(f), o), LISTS);
    }
  }

  // ---- what an accepted state lists ----------------------------------------------------------------------

  /** No list has a block twice, and each block is of its list's zone. */
  ghost predicate NoRepeats(lists: Lists) {
    && (forall id :: ValidId(id) ==> id in lists)
    && (forall id, i, j {:trigger lists[id][i], lists[id][j]} :: ValidId(id) && 0 <= i < j < |lists[id]| ==>
          lists[id][i] != lists[id][j])
    && forall id, i {:trigger lists[id][i]} :: ValidId(id) && 0 <= i < |lists[id]| ==> ZoneOf(lists[id][i]) == id.zone
  }

  lemma LinksNoRepeats(nodes: seq<Node>, heads: map<ListId, Option<nat>>, counts: map<ListId, nat>, lists: Lists)
    requires Links(nodes, heads, counts, lists)
    ensures NoRepeats(lists)
  {
    forall id, i: nat, j: nat | ValidId(id) && i < j < |lists[id]|
      ensures lists[id][i] != lists[id][j]
    {
      assert ListOk(nodes, heads[id], counts[id], id, lists[id]);
      Acyclic(nodes, id, lists[id], i, j);
    }
    forall id, i | ValidId(id) && 0 <= i < |lists[id]|
      ensures ZoneOf(lists[id][i]) == id.zone
    {
      assert ListOk(nodes, heads[id], counts[id], id, lists[id]);
    }
  }

  /** Dropping the last block of a list. */
  lemma DropLast(lists: Lists, free: set<nat>, id: ListId, f: nat, lists': Lists)
    requires NoRepeats(lists) && AllMaximal(lists, free) && ValidId(id) && lists[id] != []
    requires f == lists[id][|lists[id]| - 1] && lists' == lists[id := lists[id][..|lists[id]| - 1]]
    ensures Maximal(free, f, id.order)
    ensures NoRepeats(lists') && AllMaximal(lists', free - Block(f, id.order))
    ensures Weight(lists', LISTS) + Pow2(id.order) == Weight(lists, LISTS)
  {
    LastIsListed(lists, id, f);
    FewerRepeats(lists, id, lists');
    FewerMaximal(lists, free, id, f, lists');
    WeightUpdate(lists, id, lists[id][..|lists[id]| - 1], LISTS);
  }

  lemma LastIsListed(lists: Lists, id: ListId, f: nat)
    requires NoRepeats(lists) && ValidId(id) && lists[id] != [] && f == lists[id][|lists[id]| - 1]
    ensures Listed(lists, f, id.order)
  {
    assert ZoneOf(lists[id][|lists[id]| - 1]) == id.zone;
  }

  lemma FewerMaximal(lists: Lists, free: set<nat>, id: ListId, f: nat, lists': Lists)
    requires NoRepeats(lists) && AllMaximal(lists, free) && ValidId(id) && lists[id] != [] && Maximal(free, f, id.order)
    requires f == lists[id][|lists[id]| - 1] && lists' == lists[id := lists[id][..|lists[id]| - 1]]
    ensures AllMaximal(lists', free - Block(f, id.order))
  {
    forall g: nat, k: nat | Listed(lists', g, k)
      ensures Maximal(free - Block(f, id.order), g, k)
    {
      StillListed(lists, id, f, lists', g, k);
      WholeStep(free, f, id.order, g, k);
    }
  }

  lemma FewerRepeats(lists: Lists, id: ListId, lists': Lists)
    requires NoRepeats(lists) && ValidId(id) && lists[id] != [] && lists' == lists[id := lists[id][..|lists[id]| - 1]]
    ensures NoRepeats(lists')
  {
    forall j, x | ValidId(j) && 0 <= x < |lists'[j]|
      ensures x < |lists[j]| && lists'[j][x] == lists[j][x]
    {
    }
  }

  lemma StillListed(lists: Lists, id: ListId, f: nat, lists': Lists, g: nat, k: nat)
    requires NoRepeats(lists) && ValidId(id) && lists[id] != [] && f == lists[id][|lists[id]| - 1]
    requires lists' == lists[id := lists[id][..|lists[id]| - 1]] && Listed(lists', g, k)
    ensures Listed(lists, g, k) && !(g == f && k == id.order)
  {
    var l := lists[id];
    assert ZoneOf(l[|l| - 1]) == id.zone;
    if ListId(ZoneOf(g), k) == id {
      var i :| 0 <= i < |l| - 1 && l[..|l| - 1][i] == g;
      assert l[i] != l[|l| - 1];
    }
  }

  /** Maximal blocks with as many frames as are free are all the maximal blocks. */
  lemma {:induction false} NoneMissing(lists: Lists, free: set<nat>, g: nat, k: nat)
    requires NoRepeats(lists) && AllMaximal(lists, free) && Weight(lists, LISTS) == |free| && Maximal(free, g, k)
    ensures Listed(lists, g, k)
    decreases |free|
  {
    SomeListed(lists, free, g, k);
    var id :| ValidId(id) && lists[id] != [];
    var f := lists[id][|lists[id]| - 1];
    var lists' := lists[id := lists[id][..|lists[id]| - 1]];
    DropLast(lists, free, id, f, lists');
    LastIsListed(lists, id, f);
    WholeSize(free, f, id.order);
    WholeStep(free, f, id.order, g, k);
    if !(g == f && k == id.order) {
      NoneMissing(lists', free - Block(f, id.order), g, k);
      StillListed(lists, id, f, lists', g, k);
    }
  }

  lemma SomeListed(lists: Lists, free: set<nat>, g: nat, k: nat)
    requires NoRepeats(lists) && Weight(lists, LISTS) == |free| && Maximal(free, g, k)
    ensures exists id :: ValidId(id) && lists[id] != []
  {
    MaximalHead(free, g, k);
    assert |free - {g}| == |free| - 1;
    if forall id :: ValidId(id) ==> lists[id] == [] {
      NothingWeighs(lists, LISTS);
    }
  }

  lemma {:induction false} NothingWeighs(lists: Lists, k: nat)
    requires k <= LISTS && forall id :: ValidId(id) ==> id in lists && lists[id] == []
    ensures Weight(lists, k) == 0
  {
    if k > 0 {
      NothingWeighs(lists, k - 1);
      var id := IdAt(k - 1);
      assert ValidId(id) && |lists[id]| == 0;
    }
  }

  /** An accepted allocator lists exactly the maximal free blocks if and only if each block it lists
      is maximal. */
  lemma AcceptedIsSound(state: seq<State>, nodes: seq<Node>, heads: map<ListId, Option<nat>>, counts: map<ListId, nat>,
                        lists: Lists)
    requires Checked(state, nodes, heads, counts, lists)
    ensures Indexes(lists, FreeSet(state)) <==> AllMaximal(lists, FreeSet(state))
  {
    if AllMaximal(lists, FreeSet(state)) {
      LinksNoRepeats(nodes, heads, counts, lists);
      forall g: nat, k: nat | Maximal(FreeSet(state), g, k)
        ensures Listed(lists, g, k)
      {
        NoneMissing(lists, FreeSet(state), g, k);
      }
    }
  }

  /** It need not be: two free buddies listed apart are accepted. */
  lemma UnmergedIsAccepted() returns (state: seq<State>, nodes: seq<Node>, heads: map<ListId, Option<nat>>,
                                      counts: map<ListId, nat>, lists: Lists)
    ensures Checked(state, nodes, heads, counts, lists) && !Indexes(lists, FreeSet(state))
  {
    var id := ListId(0, 0);
    state := [Free, Free];
    nodes := [Node(true, 0, None, Some(1)), Node(true, 0, Some(0), None)];
    var noHeads: map<ListId, Option<nat>>, noCounts: map<ListId, nat>, noLists: Lists :=
      Filled(LISTS, None), Filled(LISTS, 0), Filled(LISTS, []);
    heads, counts, lists := noHeads[id := Some(0)], noCounts[id := 2], noLists[id := [0, 1]];
    TwoApart(state, nodes, heads, counts, lists, noLists);
  }

  lemma TwoApart(state: seq<State>, nodes: seq<Node>, heads: map<ListId, Option<nat>>, counts: map<ListId, nat>,
                 lists: Lists, noLists: Lists)
    requires state == [Free, Free] && nodes == [Node(true, 0, None, Some(1)), Node(true, 0, Some(0), None)]
    requires forall id :: ValidId(id) ==> id in heads && id in counts && id in noLists && noLists[id] == []
    requires ListId(0, 0) in heads && ListId(0, 0) in counts
    requires forall id :: ValidId(id) && id != ListId(0, 0) ==> heads[id] == None && counts[id] == 0
    requires heads[ListId(0, 0)] == Some(0) && counts[ListId(0, 0)] == 2 && lists == noLists[ListId(0, 0) := [0, 1]]
    ensures Checked(state, nodes, heads, counts, lists) && !Indexes(lists, FreeSet(state))
  {
    var free := FreeSet(state);
    assert free == {0, 1};
    assert ListOk(nodes, Some(0), 2, ListId(0, 0), [0, 1]);
    NothingWeighs(noLists, LISTS);
    WeightUpdate(noLists, ListId(0, 0), [0, 1], LISTS);
    FramesIs(2, 0);
    SingleBlock(0);
    SingleBlock(1);
    forall f: nat, o: nat | Listed(lists, f, o)
      ensures FreeBlock(free, f, o)
    {
      assert o == 0 && (f == 0 || f == 1);
    }
    assert Listed(lists, 0, 0) && Down(0, 1) == 0;
    forall x | x in Block(0, 1)
      ensures x in free
    {
      assert Pow2(1) == 2;
    }
    assert FreeBlock(free, 0, 1);
  }
}
