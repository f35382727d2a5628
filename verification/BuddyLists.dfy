/** The buddy free lists: intrusive doubly linked lists, one per zone and order, whose nodes
    live in the free frames themselves, over an authoritative bitmap.

    `Links` says the lists are well formed; `Indexes` says that what they list is exactly the
    maximal free blocks of the bitmap, so the lists are determined by the bitmap alone.
  */
module BuddyLists {
  import opened Outcomes
  import opened Dyadic
  import opened FreeBlocks

  const DMA32_FRAMES: nat := 0x10_0000
  const ZONES: nat := 2

  datatype State = Reserved | Free | Allocated

  datatype ReleaseError = OutOfRange | Unaligned | DuplicateRelease | DoubleFree | InvalidRange

  /** The first bytes of a frame. `tagged` is whether they hold this frame's own head tag
      (the magic number mixed with the frame number); clearing the magic clears it. */
  datatype Node = Node(tagged: bool, order: nat, prev: Option<nat>, next: Option<nat>)

  datatype ListId = ListId(zone: nat, order: nat)

  function ZoneOf(f: nat): nat {
    if f < DMA32_FRAMES then 0 else 1
  }

  predicate ValidId(id: ListId) {
    id.zone < ZONES && id.order <= MAX_ORDER
  }

  type Lists = map<ListId, seq<nat>>

  // ---- one list --------------------------------------------------------------------------

  function First(l: seq<nat>): Option<nat> {
    if l == [] then None else Some(l[0])
  }

  /** The node of the `i`-th block of a list. */
  function NodeAt(l: seq<nat>, i: nat, order: nat): Node
    requires i < |l|
  {
    Node(true, order, if i == 0 then None else Some(l[i - 1]), if i + 1 == |l| then None else Some(l[i + 1]))
  }

  /** `l` is the list `id`: doubly linked from its head, in its zone. */
  ghost predicate Linked(nodes: seq<Node>, id: ListId, l: seq<nat>) {
    forall i :: 0 <= i < |l| ==> l[i] < |nodes| && ZoneOf(l[i]) == id.zone && nodes[l[i]] == NodeAt(l, i, id.order)
  }

  /** Back links make a list acyclic: no block is on it twice. */
  lemma {:induction false} Acyclic(nodes: seq<Node>, id: ListId, l: seq<nat>, i: nat, j: nat)
    requires Linked(nodes, id, l) && i < j < |l|
    ensures l[i] != l[j]
  {
    assert nodes[l[i]] == NodeAt(l, i, id.order) && nodes[l[j]] == NodeAt(l, j, id.order);
    if i > 0 {
      Acyclic(nodes, id, l, i - 1, j - 1);
    }
  }

  ghost predicate ListOk(nodes: seq<Node>, head: Option<nat>, count: nat, id: ListId, l: seq<nat>) {
    head == First(l) && count == |l| && Linked(nodes, id, l)
  }

  ghost predicate Total(heads: map<ListId, Option<nat>>, counts: map<ListId, nat>, lists: Lists) {
    forall id :: ValidId(id) ==> id in heads && id in counts && id in lists
  }

  ghost predicate Links(nodes: seq<Node>, heads: map<ListId, Option<nat>>, counts: map<ListId, nat>, lists: Lists) {
    && Total(heads, counts, lists)
    && forall id {:trigger ListOk(nodes, heads[id], counts[id], id, lists[id])} :: ValidId(id) ==>
         ListOk(nodes, heads[id], counts[id], id, lists[id])
  }

  /** The block `f` of order `o` is on its list. */
  ghost predicate Listed(lists: Lists, f: nat, o: nat) {
    o <= MAX_ORDER && ListId(ZoneOf(f), o) in lists && f in lists[ListId(ZoneOf(f), o)]
  }

  /** A frame heads at most one listed block: its node says of which order. */
  lemma ListedOnce(nodes: seq<Node>, heads: map<ListId, Option<nat>>, counts: map<ListId, nat>, lists: Lists, f: nat,
                   o: nat)
    requires Links(nodes, heads, counts, lists) && Listed(lists, f, o)
    ensures f < |nodes| && nodes[f].tagged && nodes[f].order == o
  {
    var id := ListId(ZoneOf(f), o);
    assert ListOk(nodes, heads[id], counts[id], id, lists[id]);
  }

  lemma ListsDisjoint(nodes: seq<Node>, a: ListId, la: seq<nat>, b: ListId, lb: seq<nat>, g: nat)
    requires Linked(nodes, a, la) && Linked(nodes, b, lb) && g in la && g in lb
    ensures a == b
  {
    var i :| 0 <= i < |la| && la[i] == g;
    var j :| 0 <= j < |lb| && lb[j] == g;
    assert nodes[la[i]].order == nodes[lb[j]].order;
  }

  lemma LinkedFrame(nodes: seq<Node>, nodes': seq<Node>, id: ListId, l: seq<nat>)
    requires Linked(nodes, id, l) && |nodes'| == |nodes|
    requires forall g :: g in l ==> g < |nodes| && nodes'[g] == nodes[g]
    ensures Linked(nodes', id, l)
  {
    forall i | 0 <= i < |l|
      ensures nodes'[l[i]] == nodes[l[i]]
    {
      assert l[i] in l;
    }
  }

  // ---- push --------------------------------------------------------------------------------

  function PushNodes(nodes: seq<Node>, f: nat, o: nat, head: Option<nat>): (r: seq<Node>)
    requires f < |nodes| && (head.Some? ==> head.value < |nodes|)
    ensures |r| == |nodes|
  {
    var written := nodes[f := Node(true, o, None, head)];
    if head.Some? then written[head.value := written[head.value].(prev := Some(f))] else written
  }

  lemma PushLinked(nodes: seq<Node>, id: ListId, l: seq<nat>, f: nat)
    requires Linked(nodes, id, l) && f < |nodes| && f !in l && ZoneOf(f) == id.zone
    ensures First(l).Some? ==> First(l).value < |nodes|
    ensures Linked(PushNodes(nodes, f, id.order, First(l)), id, [f] + l)
  {
    var nodes' := PushNodes(nodes, f, id.order, First(l));
    var l' := [f] + l;
    forall i | 0 <= i < |l'|
      ensures l'[i] < |nodes'| && ZoneOf(l'[i]) == id.zone && nodes'[l'[i]] == NodeAt(l', i, id.order)
    {
      if i > 0 {
        assert l'[i] == l[i - 1] && l[i - 1] in l;
        if i > 1 {
          Acyclic(nodes, id, l, 0, i - 1);
        }
      }
    }
  }

  /** Pushing changes one list; the nodes of the others are not touched. */
  lemma PushLinks(nodes: seq<Node>, heads: map<ListId, Option<nat>>, counts: map<ListId, nat>, lists: Lists,
                  id: ListId, f: nat)
    requires Links(nodes, heads, counts, lists) && f < |nodes| && ValidId(id) && ZoneOf(f) == id.zone
    requires forall k :: !Listed(lists, f, k)
    ensures heads[id].Some? ==> heads[id].value < |nodes|
    ensures Links(PushNodes(nodes, f, id.order, heads[id]), heads[id := Some(f)], counts[id := counts[id] + 1],
                  lists[id := [f] + lists[id]])
  {
    assert ListOk(nodes, heads[id], counts[id], id, lists[id]);
    assert !Listed(lists, f, id.order);
    PushLinked(nodes, id, lists[id], f);
    var nodes' := PushNodes(nodes, f, id.order, heads[id]);
    var (heads', counts', lists') := (heads[id := Some(f)], counts[id := counts[id] + 1], lists[id := [f] + lists[id]]);
    forall k | ValidId(k)
      ensures ListOk(nodes', heads'[k], counts'[k], k, lists'[k])
    {
      if k != id {
        assert ListOk(nodes, heads[k], counts[k], k, lists[k]);
        PushOther(nodes, id, lists[id], k, lists[k], lists, f);
      }
    }
  }

  lemma PushOther(nodes: seq<Node>, id: ListId, l: seq<nat>, k: ListId, lk: seq<nat>, lists: Lists, f: nat)
    requires Linked(nodes, id, l) && Linked(nodes, k, lk) && k != id && f < |nodes| && ValidId(k)
    requires k in lists && lists[k] == lk && forall o :: !Listed(lists, f, o)
    ensures l != [] ==> l[0] < |nodes|
    ensures Linked(PushNodes(nodes, f, id.order, First(l)), k, lk)
  {
    var nodes' := PushNodes(nodes, f, id.order, First(l));
    forall g | g in lk
      ensures g < |nodes| && nodes'[g] == nodes[g]
    {
      ListedZone(nodes, k, lk, g);
      assert !Listed(lists, f, k.order);
      if g in l {
        ListsDisjoint(nodes, id, l, k, lk, g);
      }
    }
    LinkedFrame(nodes, nodes', k, lk);
  }

  lemma ListedZone(nodes: seq<Node>, id: ListId, l: seq<nat>, g: nat)
    requires Linked(nodes, id, l) && g in l
    ensures ZoneOf(g) == id.zone && g < |nodes| && nodes[g].order == id.order && nodes[g].tagged
  {
    var i :| 0 <= i < |l| && l[i] == g;
  }

  // ---- unlink --------------------------------------------------------------------------------

  function UnlinkNodes(nodes: seq<Node>, f: nat): (r: seq<Node>)
    requires f < |nodes| && (nodes[f].prev.Some? ==> nodes[f].prev.value < |nodes|)
    requires nodes[f].next.Some? ==> nodes[f].next.value < |nodes|
    ensures |r| == |nodes|
  {
    var (prev, next) := (nodes[f].prev, nodes[f].next);
    var a := if prev.Some? then nodes[prev.value := nodes[prev.value].(next := next)] else nodes;
    var b := if next.Some? then a[next.value := a[next.value].(prev := prev)] else a;
    b[f := b[f].(tagged := false)]
  }

  function Dropped(l: seq<nat>, i: nat): (r: seq<nat>)
    requires i < |l|
    ensures |r| == |l| - 1
    ensures forall j :: 0 <= j < |r| ==> r[j] == l[if j < i then j else j + 1]
  {
    l[..i] + l[i + 1..]
  }

  /** What unlinking the `i`-th block finds in its node. */
  ghost predicate UnlinkReady(nodes: seq<Node>, l: seq<nat>, i: nat)
    requires i < |l|
  {
    && l[i] < |nodes|
    && nodes[l[i]].prev == (if i == 0 then None else Some(l[i - 1])) && (i > 0 ==> l[i - 1] < |nodes|)
    && nodes[l[i]].next == (if i + 1 == |l| then None else Some(l[i + 1])) && (i + 1 < |l| ==> l[i + 1] < |nodes|)
  }

  lemma Differ(nodes: seq<Node>, id: ListId, l: seq<nat>, i: nat, k: nat)
    requires Linked(nodes, id, l) && i < |l| && k < |l| && i != k
    ensures l[i] != l[k]
  {
    if i < k {
      Acyclic(nodes, id, l, i, k);
    } else {
      Acyclic(nodes, id, l, k, i);
    }
  }

  /** Unlinking rewires the neighbours and leaves every other node alone. */
  lemma UnlinkValue(nodes: seq<Node>, f: nat, g: nat)
    requires f < |nodes| && g < |nodes| && f != g
    requires nodes[f].prev.Some? ==> nodes[f].prev.value < |nodes|
    requires nodes[f].next.Some? ==> nodes[f].next.value < |nodes|
    ensures UnlinkNodes(nodes, f)[g] ==
            Node(nodes[g].tagged, nodes[g].order, if nodes[f].next == Some(g) then nodes[f].prev else nodes[g].prev,
                 if nodes[f].prev == Some(g) then nodes[f].next else nodes[g].next)
  {
  }

  /** The node of the `k`-th block once the `i`-th is gone. */
  function Bridged(l: seq<nat>, i: nat, k: nat, order: nat): Node
    requires i < |l| && k < |l| && k != i
  {
    var at := NodeAt(l, k, order);
    if k == i + 1 then at.(prev := if i == 0 then None else Some(l[i - 1]))
    else if k + 1 == i then at.(next := if i + 1 == |l| then None else Some(l[i + 1]))
    else at
  }

  lemma BridgedIsDropped(l: seq<nat>, i: nat, j: nat, order: nat)
    requires i < |l| && j < |l| - 1
    ensures Bridged(l, i, if j < i then j else j + 1, order) == NodeAt(Dropped(l, i), j, order)
  {
  }

  lemma UnlinkedNode(nodes: seq<Node>, id: ListId, l: seq<nat>, i: nat, k: nat)
    requires Linked(nodes, id, l) && i < |l| && k < |l| && k != i && UnlinkReady(nodes, l, i)
    ensures l[k] < |nodes| && ZoneOf(l[k]) == id.zone && UnlinkNodes(nodes, l[i])[l[k]] == Bridged(l, i, k, id.order)
  {
    var f, g := l[i], l[k];
    assert nodes[g] == NodeAt(l, k, id.order);
    assert (nodes[f].prev == Some(g) <==> k + 1 == i) && (nodes[f].next == Some(g) <==> k == i + 1) by {
      if i > 0 && k != i - 1 {
        Differ(nodes, id, l, k, i - 1);
      }
      if i + 1 < |l| && k != i + 1 {
        Differ(nodes, id, l, k, i + 1);
      }
    }
    Differ(nodes, id, l, k, i);
    UnlinkValue(nodes, f, g);
  }

  lemma UnlinkLinked(nodes: seq<Node>, id: ListId, l: seq<nat>, i: nat)
    requires Linked(nodes, id, l) && i < |l|
    ensures UnlinkReady(nodes, l, i)
    ensures Linked(UnlinkNodes(nodes, l[i]), id, Dropped(l, i))
    ensures First(Dropped(l, i)) == if i == 0 then nodes[l[i]].next else First(l)
  {
    assert nodes[l[i]] == NodeAt(l, i, id.order);
    forall j | 0 <= j < |Dropped(l, i)|
      ensures var f := Dropped(l, i)[j];
        f < |nodes| && ZoneOf(f) == id.zone && UnlinkNodes(nodes, l[i])[f] == NodeAt(Dropped(l, i), j, id.order)
    {
      UnlinkedNode(nodes, id, l, i, if j < i then j else j + 1);
      BridgedIsDropped(l, i, j, id.order);
    }
  }

  lemma UnlinkOther(nodes: seq<Node>, id: ListId, l: seq<nat>, i: nat, k: ListId, lk: seq<nat>)
    requires Linked(nodes, id, l) && Linked(nodes, k, lk) && k != id && i < |l| && UnlinkReady(nodes, l, i)
    ensures Linked(UnlinkNodes(nodes, l[i]), k, lk)
  {
    var nodes' := UnlinkNodes(nodes, l[i]);
    assert l[i] in l && (i > 0 ==> l[i - 1] in l) && (i + 1 < |l| ==> l[i + 1] in l);
    forall g | g in lk
      ensures g < |nodes| && nodes'[g] == nodes[g]
    {
      ListedZone(nodes, k, lk, g);
      if g in l {
        ListsDisjoint(nodes, id, l, k, lk, g);
      }
    }
    LinkedFrame(nodes, nodes', k, lk);
  }

  /** Unlinking changes one list; the nodes of the others are not touched. */
  lemma UnlinkLinks(nodes: seq<Node>, heads: map<ListId, Option<nat>>, counts: map<ListId, nat>, lists: Lists,
                    id: ListId, i: nat)
    requires Links(nodes, heads, counts, lists) && ValidId(id) && i < |lists[id]|
    ensures UnlinkReady(nodes, lists[id], i) && counts[id] > 0
    ensures var f := lists[id][i];
      Links(UnlinkNodes(nodes, f), if nodes[f].prev.None? then heads[id := nodes[f].next] else heads,
            counts[id := counts[id] - 1], lists[id := Dropped(lists[id], i)])
  {
    var l := lists[id];
    assert ListOk(nodes, heads[id], counts[id], id, l);
    UnlinkLinked(nodes, id, l, i);
    var f := l[i];
    var nodes' := UnlinkNodes(nodes, f);
    var heads' := if nodes[f].prev.None? then heads[id := nodes[f].next] else heads;
    var (counts', lists') := (counts[id := counts[id] - 1], lists[id := Dropped(l, i)]);
    forall k | ValidId(k)
      ensures ListOk(nodes', heads'[k], counts'[k], k, lists'[k])
    {
      if k != id {
        assert ListOk(nodes, heads[k], counts[k], k, lists[k]);
        UnlinkOther(nodes, id, l, i, k, lists[k]);
      }
    }
  }

  // ---- the lists against the free frames ----------------------------------------------------

  /** The lists hold exactly the maximal blocks of `free`. */
  ghost predicate Indexes(lists: Lists, free: set<nat>) {
    forall f: nat, o: nat {:trigger Listed(lists, f, o)} :: Listed(lists, f, o) <==> Maximal(free, f, o)
  }

  function IdAt(k: nat): ListId {
    ListId(k / (MAX_ORDER + 1), k % (MAX_ORDER + 1))
  }

  /** Frames of `n` blocks: `n << order`. */
  function Frames(n: nat, order: nat): nat {
    if n == 0 then 0 else Frames(n - 1, order) + Pow2(order)
  }

  /** Frames on the first `k` lists, by their counts (`free_frames`). */
  ghost function Weight(lists: Lists, k: nat): nat {
    if k == 0 then 0
    else Weight(lists, k - 1) + (if IdAt(k - 1) in lists then Frames(|lists[IdAt(k - 1)]|, IdAt(k - 1).order) else 0)
  }

  const LISTS: nat := ZONES * (MAX_ORDER + 1)

  ghost predicate Indexed(lists: Lists, free: set<nat>) {
    Indexes(lists, free) && Weight(lists, LISTS) == |free|
  }

  /** The maximal blocks of `more` are those of `less` and the block `f` of order `o`. */
  ghost predicate Adds(less: set<nat>, more: set<nat>, f: nat, o: nat) {
    && (forall g: nat, k: nat {:trigger Maximal(more, g, k)} {:trigger Maximal(less, g, k)} ::
          Maximal(more, g, k) <==> Maximal(less, g, k) || (g == f && k == o))
    && !Maximal(less, f, o)
    && |more| == |less| + Pow2(o)
  }

  lemma {:induction false} IntervalSize(s: set<nat>, f: nat, n: nat)
    requires forall x: nat :: x in s <==> f <= x < f + n
    ensures |s| == n
  {
    if n == 0 {
      assert s == {};
    } else {
      IntervalSize(s - {f + n - 1}, f, n - 1);
    }
  }

  lemma BlockSize(f: nat, o: nat)
    ensures |Block(f, o)| == Pow2(o)
  {
    forall x: nat
      ensures x in Block(f, o) <==> f <= x < f + Pow2(o)
    {
      assert InBlock(x, f, o) <==> f <= x < f + Pow2(o);
    }
    IntervalSize(Block(f, o), f, Pow2(o));
  }

  lemma WholeSize(free: set<nat>, f: nat, o: nat)
    requires Maximal(free, f, o)
    ensures !Maximal(free - Block(f, o), f, o) && |free| == |free - Block(f, o)| + Pow2(o)
  {
    InParent(f, o);
    BlockSize(f, o);
    assert f !in free - Block(f, o);
    assert free == (free - Block(f, o)) + Block(f, o);
  }

  lemma WholeAdds(free: set<nat>, f: nat, o: nat)
    requires Maximal(free, f, o)
    ensures Adds(free - Block(f, o), free, f, o)
  {
    forall g: nat, k: nat
      ensures Maximal(free, g, k) <==> Maximal(free - Block(f, o), g, k) || (g == f && k == o)
    {
      WholeStep(free, f, o, g, k);
    }
    WholeSize(free, f, o);
  }

  lemma HalfAdds(free: set<nat>, f: nat, c: nat, a: nat, b: nat)
    requires FreeBlock(free, f, c + 1)
    requires (a == f && b == f + Pow2(c)) || (b == f && a == f + Pow2(c))
    ensures Adds(free - Block(f, c + 1), free - Block(a, c), b, c)
  {
    forall g: nat, k: nat
      ensures Maximal(free - Block(a, c), g, k) <==> Maximal(free - Block(f, c + 1), g, k) || (g == b && k == c)
    {
      HalfStep(free, f, c, a, b, g, k);
    }
    HalfSize(free, f, c, a, b);
  }

  lemma HalfSize(free: set<nat>, f: nat, c: nat, a: nat, b: nat)
    requires FreeBlock(free, f, c + 1)
    requires (a == f && b == f + Pow2(c)) || (b == f && a == f + Pow2(c))
    ensures !Maximal(free - Block(f, c + 1), b, c) && |free - Block(a, c)| == |free - Block(f, c + 1)| + Pow2(c)
  {
    HalfBlocks(f, c, a, b);
    BlockSize(b, c);
    SplitSize(free, Block(f, c + 1), Block(a, c), Block(b, c));
    NotFree(free - Block(f, c + 1), b, c, b);
  }

  lemma HalfBlocks(f: nat, c: nat, a: nat, b: nat)
    requires AlignedAt(f, c + 1)
    requires (a == f && b == f + Pow2(c)) || (b == f && a == f + Pow2(c))
    ensures Block(f, c + 1) == Block(a, c) + Block(b, c) && Block(a, c) !! Block(b, c)
    ensures b in Block(b, c)
  {
    SplitBlock(f, c);
    assert InBlock(b, b, c);
  }

  lemma NotFree(free: set<nat>, f: nat, o: nat, x: nat)
    requires x in Block(f, o) && x !in free
    ensures !Maximal(free, f, o)
  {
  }

  lemma SplitSize(free: set<nat>, whole: set<nat>, a: set<nat>, b: set<nat>)
    requires whole == a + b && a !! b && whole <= free
    ensures |free - a| == |free - whole| + |b|
  {
    assert free - a == (free - whole) + b;
  }

  lemma IdAtBefore(id: ListId, k: nat)
    requires ValidId(id)
    ensures Before(id, k + 1) <==> Before(id, k) || IdAt(k) == id
    ensures !(Before(id, k) && IdAt(k) == id)
  {
  }

  lemma {:induction false} WeightUpdate(lists: Lists, id: ListId, l: seq<nat>, k: nat)
    requires ValidId(id) && id in lists
    ensures Weight(lists[id := l], k) + (if Before(id, k) then Frames(|lists[id]|, id.order) else 0) ==
            Weight(lists, k) + (if Before(id, k) then Frames(|l|, id.order) else 0)
  {
    if k > 0 {
      WeightUpdate(lists, id, l, k - 1);
      IdAtBefore(id, k - 1);
    }
  }

  /** The list is among the first `k`. */
  predicate Before(id: ListId, k: nat) {
    id.zone * (MAX_ORDER + 1) + id.order < k
  }

  lemma PushIndexed(lists: Lists, less: set<nat>, more: set<nat>, id: ListId, f: nat)
    requires Indexed(lists, less) && Adds(less, more, f, id.order) && ValidId(id) && ZoneOf(f) == id.zone && id in lists
    ensures Indexed(lists[id := [f] + lists[id]], more)
  {
    PushIndexes(lists, less, more, id, f, lists[id := [f] + lists[id]]);
    WeightUpdate(lists, id, [f] + lists[id], LISTS);
    assert Before(id, LISTS);
  }

  lemma PushIndexes(lists: Lists, less: set<nat>, more: set<nat>, id: ListId, f: nat, lists': Lists)
    requires Indexes(lists, less) && Adds(less, more, f, id.order) && ValidId(id) && ZoneOf(f) == id.zone && id in lists
    requires lists' == lists[id := [f] + lists[id]]
    ensures Indexes(lists', more)
  {
    forall g: nat, k: nat
      ensures Listed(lists', g, k) <==> Maximal(more, g, k)
    {
      assert Listed(lists, g, k) <==> Maximal(less, g, k);
      PushListed(lists, id, f, g, k);
    }
  }

  lemma PushListed(lists: Lists, id: ListId, f: nat, g: nat, k: nat)
    requires ValidId(id) && ZoneOf(f) == id.zone && id in lists
    ensures Listed(lists[id := [f] + lists[id]], g, k) <==> Listed(lists, g, k) || (g == f && k == id.order)
  {
  }

  lemma UnlinkIndexed(nodes: seq<Node>, lists: Lists, less: set<nat>, more: set<nat>, id: ListId, i: nat)
    requires ValidId(id) && id in lists && i < |lists[id]| && Linked(nodes, id, lists[id])
    requires Indexed(lists, more) && Adds(less, more, lists[id][i], id.order)
    ensures Indexed(lists[id := Dropped(lists[id], i)], less)
  {
    UnlinkIndexes(nodes, lists, less, more, id, i, lists[id := Dropped(lists[id], i)]);
    WeightUpdate(lists, id, Dropped(lists[id], i), LISTS);
    assert Before(id, LISTS);
  }

  lemma UnlinkIndexes(nodes: seq<Node>, lists: Lists, less: set<nat>, more: set<nat>, id: ListId, i: nat, lists': Lists)
    requires ValidId(id) && id in lists && i < |lists[id]| && Linked(nodes, id, lists[id])
    requires Indexes(lists, more) && Adds(less, more, lists[id][i], id.order)
    requires lists' == lists[id := Dropped(lists[id], i)]
    ensures Indexes(lists', less)
  {
    forall g: nat, k: nat
      ensures Listed(lists', g, k) <==> Maximal(less, g, k)
    {
      assert Listed(lists, g, k) <==> Maximal(more, g, k);
      UnlinkListed(nodes, lists, id, i, g, k);
    }
  }

  lemma UnlinkListed(nodes: seq<Node>, lists: Lists, id: ListId, i: nat, g: nat, k: nat)
    requires ValidId(id) && id in lists && i < |lists[id]| && Linked(nodes, id, lists[id])
    ensures Listed(lists[id := Dropped(lists[id], i)], g, k) <==>
            Listed(lists, g, k) && !(g == lists[id][i] && k == id.order)
  {
    if ListId(ZoneOf(g), k) == id {
      DroppedMembers(nodes, id, lists[id], i, g);
    }
  }

  lemma DroppedMembers(nodes: seq<Node>, id: ListId, l: seq<nat>, i: nat, g: nat)
    requires Linked(nodes, id, l) && i < |l|
    ensures g in Dropped(l, i) <==> g in l && g != l[i]
  {
    if g in Dropped(l, i) {
      var j :| 0 <= j < |l| - 1 && Dropped(l, i)[j] == g;
      Differ(nodes, id, l, if j < i then j else j + 1, i);
    }
    if g in l && g != l[i] {
      var k :| 0 <= k < |l| && l[k] == g;
      assert Dropped(l, i)[if k < i then k else k - 1] == g;
    }
  }
}
