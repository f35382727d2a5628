/** A user address space's page tables in table frames, as the finite map they stand for.

    A table is known by the path of indices that leads to it from the root, a page by its four
    indices. `at` says which frame holds the table of a path; `pages` is the map of mapped pages.
    Both are read off the memory: `Shape` ties them to it.
  */
module PageTables {
  import opened Outcomes
  import opened PageLeaves

  const ENTRIES: nat := 512
  const LEVELS: nat := 4

  datatype MapError = AlreadyMapped | HugePage | OutOfFrames | NotMapped

  datatype Outcome<+T> = Done(value: T) | Failed(error: MapError)

  predicate Fails<T>(r: Outcome<T>, e: MapError) {
    r.Failed? && r.error == e
  }

  /** What a table slot holds: a table further down, or a page's (or a huge page's) leaf. */
  datatype Entry = Table(frame: nat) | Page(leaf: Leaf)

  type Slots = map<int, Entry>

  type Path = seq<int>

  /** A virtual page number as four indices of nine bits. */
  function PathOf(page: nat): (p: Path)
    ensures |p| == LEVELS && forall i :: 0 <= i < LEVELS ==> 0 <= p[i] < ENTRIES
  {
    var (pt, pd, pdpt) := (page / ENTRIES, page / ENTRIES / ENTRIES, page / ENTRIES / ENTRIES / ENTRIES);
    [pdpt % ENTRIES, pd % ENTRIES, pt % ENTRIES, page % ENTRIES]
  }

  /** Pages of the 48-bit space. */
  const PAGES: nat := 0x10_0000_0000

  predicate IsPath(k: Path) {
    |k| == LEVELS && forall i :: 0 <= i < LEVELS ==> 0 <= k[i] < ENTRIES
  }

  /** The page a path leads to. */
  function PageAt(k: Path): (page: nat)
    requires IsPath(k)
    ensures page < PAGES
  {
    ((k[0] * ENTRIES + k[1]) * ENTRIES + k[2]) * ENTRIES + k[3]
  }

  lemma PageOfPath(page: nat)
    requires page < PAGES
    ensures PageAt(PathOf(page)) == page
  {
  }

  lemma PathOfPage(k: Path)
    requires IsPath(k)
    ensures PathOf(PageAt(k)) == k
  {
    var a: nat := k[0] * ENTRIES + k[1];
    var b: nat := a * ENTRIES + k[2];
    var page: nat := b * ENTRIES + k[3];
    assert page / ENTRIES == b && page % ENTRIES == k[3];
    assert b / ENTRIES == a && b % ENTRIES == k[2];
    assert a / ENTRIES == k[0] && a % ENTRIES == k[1];
    assert PathOf(page)[0] == k[0] && PathOf(page)[1] == k[1];
  }

  /** Different pages have different paths. */
  lemma PathsDiffer(a: nat, b: nat)
    requires a < PAGES && b < PAGES && PathOf(a) == PathOf(b)
    ensures a == b
  {
    PageOfPath(a);
    PageOfPath(b);
  }

  /** Paths are ordered as page numbers are: an earlier index weighs more. */
  predicate Before(p: Path, q: Path)
    requires |p| == |q|
  {
    p != [] && (p[0] < q[0] || (p[0] == q[0] && Before(p[1..], q[1..])))
  }

  lemma PathsOrdered(a: nat, b: nat)
    requires a < PAGES && b < PAGES
    ensures a < b <==> Before(PathOf(a), PathOf(b))
  {
    var (p, q) := (PathOf(a), PathOf(b));
    BeforeFour(p, q);
    PageOfPath(a);
    PageOfPath(b);
    assert PageAt(p) < PageAt(q) <==>
           p[0] < q[0] || (p[0] == q[0] && (p[1] < q[1] || (p[1] == q[1] &&
             (p[2] < q[2] || (p[2] == q[2] && p[3] < q[3])))));
  }

  lemma BeforeFour(p: Path, q: Path)
    requires |p| == LEVELS && |q| == LEVELS
    ensures Before(p, q) <==>
            p[0] < q[0] || (p[0] == q[0] && (p[1] < q[1] || (p[1] == q[1] &&
              (p[2] < q[2] || (p[2] == q[2] && p[3] < q[3])))))
  {
    var (p1, q1) := (p[1..], q[1..]);
    var (p2, q2) := (p1[1..], q1[1..]);
    var (p3, q3) := (p2[1..], q2[1..]);
    assert Before(p3, q3) <==> p3[0] < q3[0];
    assert Before(p2, q2) <==> p2[0] < q2[0] || (p2[0] == q2[0] && Before(p3, q3));
    assert Before(p1, q1) <==> p1[0] < q1[0] || (p1[0] == q1[0] && Before(p2, q2));
  }

  /** What the paths say of page numbers. */
  ghost predicate Numbers(pages: map<Path, Leaf>, leaves: map<int, Leaf>) {
    && (forall k {:trigger IsPath(k)} :: k in pages ==> IsPath(k))
    && (forall v {:trigger v in leaves} :: v in leaves ==> 0 <= v)
    && (forall v: nat {:trigger PathOf(v)} ::
          && (v in leaves <==> v < PAGES && PathOf(v) in pages)
          && (v in leaves ==> leaves[v] == pages[PathOf(v)]))
  }

  lemma NumbersSet(pages: map<Path, Leaf>, leaves: map<int, Leaf>, page: nat, leaf: Leaf)
    requires Numbers(pages, leaves) && page < PAGES
    ensures Numbers(pages[PathOf(page) := leaf], leaves[page := leaf])
  {
    forall v: nat
      ensures v < PAGES && PathOf(v) == PathOf(page) ==> v == page
    {
      if v < PAGES && PathOf(v) == PathOf(page) {
        PathsDiffer(v, page);
      }
    }
  }

  lemma NumbersDrop(pages: map<Path, Leaf>, leaves: map<int, Leaf>, page: nat)
    requires Numbers(pages, leaves) && page < PAGES
    ensures Numbers(pages - {PathOf(page)}, leaves - {page})
  {
    forall v: nat
      ensures v < PAGES && PathOf(v) == PathOf(page) ==> v == page
    {
      if v < PAGES && PathOf(v) == PathOf(page) {
        PathsDiffer(v, page);
      }
    }
  }

  /** Every path in use is some page's: the map of page numbers leaves none out. */
  lemma NumbersCover(pages: map<Path, Leaf>, leaves: map<int, Leaf>, k: Path)
    requires Numbers(pages, leaves) && k in pages
    ensures IsPath(k) && PageAt(k) in leaves && leaves[PageAt(k)] == pages[k]
  {
    PathOfPage(k);
  }

  // ---- what the memory stands for --------------------------------------------------------------------

  /** The table at `q`: pointers lead to the tables of the longer paths, the last level holds pages. */
  ghost predicate TableOk(memory: map<int, Slots>, at: map<Path, nat>, pages: map<Path, Leaf>, q: Path)
    requires q in at
  {
    && at[q] in memory
    && (|q| < 3 ==> forall i: int {:trigger q + [i]} ::
          && (i in memory[at[q]] && memory[at[q]][i].Table? <==> q + [i] in at)
          && (q + [i] in at ==> memory[at[q]][i] == Table(at[q + [i]])))
    && (|q| == 3 ==> forall i: int {:trigger q + [i]} ::
          && (i in memory[at[q]] <==> q + [i] in pages)
          && (q + [i] in pages ==> memory[at[q]][i] == Page(pages[q + [i]])))
  }

  /** Paths go down from the root; no two share a frame; no other table frames exist. */
  ghost predicate Paths(memory: map<int, Slots>, at: map<Path, nat>) {
    && [] in at
    && (forall q {:trigger at[q]} :: q in at ==> |q| <= 3 && at[q] in memory && (q != [] ==> q[..|q| - 1] in at))
    && Injective(at) && forall f {:trigger Holds(at, f)} :: f in memory ==> Holds(at, f)
  }

  ghost predicate Injective(at: map<Path, nat>) {
    forall q, r {:trigger at[q], at[r]} :: q in at && r in at && at[q] == at[r] ==> q == r
  }

  ghost predicate Holds(at: map<Path, nat>, f: int) {
    exists q :: q in at && at[q] == f
  }

  /** The root holds no pages, however large. */
  ghost predicate OnlyTables(memory: map<int, Slots>, root: nat) {
    root in memory && forall i :: i in memory[root] ==> memory[root][i].Table?
  }

  ghost predicate Shape(memory: map<int, Slots>, at: map<Path, nat>, pages: map<Path, Leaf>) {
    && Paths(memory, at) && OnlyTables(memory, at[[]])
    && (forall q {:trigger TableOk(memory, at, pages, q)} :: q in at ==> TableOk(memory, at, pages, q))
    && forall k :: k in pages ==> |k| == LEVELS && k[..3] in at
  }

  /** No table but the root and `q` is empty. */
  ghost predicate Lean(memory: map<int, Slots>, at: map<Path, nat>, q: Path) {
    forall r {:trigger at[r]} :: r in at && r != [] && r != q ==> at[r] in memory && memory[at[r]] != map[]
  }

  // ---- small changes ------------------------------------------------------------------------------------

  /** A new, empty table below `p`. */
  function Grown(memory: map<int, Slots>, t: nat, i: int, f: nat): map<int, Slots>
    requires t in memory
  {
    memory[t := memory[t][i := Table(f)]][f := map[]]
  }

  /** ... and its removal. */
  function Shrunk(memory: map<int, Slots>, t: nat, i: int, f: nat): map<int, Slots>
    requires t in memory
  {
    (memory - {f})[t := memory[t] - {i}]
  }

  lemma ShrunkGrown(memory: map<int, Slots>, t: nat, i: int, f: nat)
    requires t in memory && i !in memory[t] && f !in memory
    ensures Shrunk(Grown(memory, t, i, f), t, i, f) == memory
  {
    assert memory[t][i := Table(f)] - {i} == memory[t];
  }

  lemma Extend(p: Path, i: int)
    ensures (p + [i])[..|p|] == p && |p + [i]| == |p| + 1 && (p + [i])[|p|] == i
  {
  }

  lemma SameExtend(p: Path, i: int, q: Path, j: int)
    ensures p + [i] == q + [j] <==> p == q && i == j
  {
    if p + [i] == q + [j] {
      assert (p + [i])[..|p|] == p && (q + [j])[..|q|] == q;
      assert (p + [i])[|p|] == (q + [j])[|q|];
    }
  }

  lemma PrefixIn(memory: map<int, Slots>, at: map<Path, nat>, r: Path)
    requires Paths(memory, at) && r in at
    ensures |r| <= 3 && at[r] in memory && (r != [] ==> r[..|r| - 1] in at)
  {
    assert at[r] in memory;
  }

  lemma GrowPaths(memory: map<int, Slots>, at: map<Path, nat>, p: Path, i: int, f: nat)
    requires Paths(memory, at) && p in at && |p| < 3 && f !in memory && p + [i] !in at
    ensures Paths(Grown(memory, at[p], i, f), at[p + [i] := f])
  {
    var memory': map<int, Slots> := Grown(memory, at[p], i, f);
    var at': map<Path, nat> := at[p + [i] := f];
    forall q | q in at'
      ensures |q| <= 3 && at'[q] in memory' && (q != [] ==> q[..|q| - 1] in at')
    {
      Extend(p, i);
      if q in at {
        PrefixIn(memory, at, q);
      }
    }
    GrowInjective(memory, at, p + [i], f);
    forall g | g in memory'
      ensures Holds(at', g)
    {
      GrowHolds(memory, at, p + [i], f, g);
    }
  }

  lemma GrowInjective(memory: map<int, Slots>, at: map<Path, nat>, q: Path, f: nat)
    requires Paths(memory, at) && f !in memory
    ensures Injective(at[q := f])
  {
    var at': map<Path, nat> := at[q := f];
    forall r, s | r in at' && s in at' && at'[r] == at'[s]
      ensures r == s
    {
      if r != q {
        PrefixIn(memory, at, r);
      }
      if s != q {
        PrefixIn(memory, at, s);
      }
    }
  }

  lemma GrowHolds(memory: map<int, Slots>, at: map<Path, nat>, q: Path, f: nat, g: int)
    requires Paths(memory, at) && q !in at && (g == f || g in memory)
    ensures Holds(at[q := f], g)
  {
    var at': map<Path, nat> := at[q := f];
    if g == f {
      assert at'[q] == g;
    } else {
      assert Holds(at, g);
      var r :| r in at && at[r] == g;
      assert at'[r] == g;
    }
  }

  lemma GrowShape(memory: map<int, Slots>, at: map<Path, nat>, pages: map<Path, Leaf>, p: Path, i: int, f: nat)
    requires Shape(memory, at, pages) && p in at && |p| < 3 && i !in memory[at[p]] && f !in memory
    ensures Shape(Grown(memory, at[p], i, f), at[p + [i] := f], pages) && p + [i] !in at
  {
    var memory': map<int, Slots> := Grown(memory, at[p], i, f);
    var at': map<Path, nat> := at[p + [i] := f];
    assert TableOk(memory, at, pages, p);
    assert p + [i] !in at;
    GrowPaths(memory, at, p, i, f);
    forall q | q in at'
      ensures TableOk(memory', at', pages, q)
    {
      if q == p + [i] {
        NothingBelow(memory, at, pages, q);
      } else {
        GrowTable(memory, at, pages, p, i, f, q);
      }
    }
  }

  /** A path with no table has nothing below it. */
  lemma NothingBelow(memory: map<int, Slots>, at: map<Path, nat>, pages: map<Path, Leaf>, q: Path)
    requires Shape(memory, at, pages) && q !in at
    ensures forall j: int {:trigger q + [j]} :: q + [j] !in at && (|q| == 3 ==> q + [j] !in pages)
  {
    forall j: int
      ensures q + [j] !in at && (|q| == 3 ==> q + [j] !in pages)
    {
      Extend(q, j);
      if q + [j] in at {
        PrefixIn(memory, at, q + [j]);
      }
    }
  }

  lemma GrowTable(memory: map<int, Slots>, at: map<Path, nat>, pages: map<Path, Leaf>, p: Path, i: int, f: nat, q: Path)
    requires Shape(memory, at, pages) && p in at && |p| < 3 && i !in memory[at[p]] && f !in memory && q in at
    requires p + [i] !in at
    ensures TableOk(Grown(memory, at[p], i, f), at[p + [i] := f], pages, q)
  {
    assert TableOk(memory, at, pages, q) && TableOk(memory, at, pages, p);
    var memory': map<int, Slots> := Grown(memory, at[p], i, f);
    var at': map<Path, nat> := at[p + [i] := f];
    assert at[q] == at[p] ==> q == p;
    forall j: int
      ensures |q| < 3 ==> (j in memory'[at'[q]] && memory'[at'[q]][j].Table? <==> q + [j] in at')
      ensures |q| < 3 && q + [j] in at' ==> memory'[at'[q]][j] == Table(at'[q + [j]])
    {
      SameExtend(q, j, p, i);
    }
  }

  lemma LastStep(at: map<Path, nat>, q: Path, r: Path)
    requires r != [] && r in at && forall j: int {:trigger q + [j]} :: q + [j] !in at
    ensures r[..|r| - 1] != q
  {
    var j: int := r[|r| - 1];
    assert r == r[..|r| - 1] + [j];
    assert q + [j] !in at;
  }

  lemma ShrinkPaths(memory: map<int, Slots>, at: map<Path, nat>, p: Path, i: int, q: Path)
    requires Paths(memory, at) && p in at && |p| < 3 && q == p + [i] && q in at
    requires forall j: int {:trigger q + [j]} :: q + [j] !in at
    ensures Paths(Shrunk(memory, at[p], i, at[q]), at - {q})
  {
    var memory': map<int, Slots> := Shrunk(memory, at[p], i, at[q]);
    var at': map<Path, nat> := at - {q};
    Extend(p, i);
    assert at[p] != at[q];
    forall r | r in at'
      ensures |r| <= 3 && at'[r] in memory' && (r != [] ==> r[..|r| - 1] in at')
    {
      PrefixIn(memory, at, r);
      assert at[r] != at[q];
      if r != [] {
        LastStep(at, q, r);
      }
    }
    forall g | g in memory'
      ensures Holds(at', g)
    {
      ShrinkHolds(memory, at, q, g);
    }
  }

  lemma ShrinkHolds(memory: map<int, Slots>, at: map<Path, nat>, q: Path, g: int)
    requires Paths(memory, at) && q in at && g in memory && g != at[q]
    ensures Holds(at - {q}, g)
  {
    assert Holds(at, g);
    var r :| r in at && at[r] == g;
    assert r in at - {q} && (at - {q})[r] == g;
  }

  lemma ShrinkShape(memory: map<int, Slots>, at: map<Path, nat>, pages: map<Path, Leaf>, p: Path, i: int, q: Path)
    requires Shape(memory, at, pages) && p in at && |p| < 3 && q == p + [i] && q in at && memory[at[q]] == map[]
    ensures Shape(Shrunk(memory, at[p], i, at[q]), at - {q}, pages) && at[q] != at[p]
  {
    assert TableOk(memory, at, pages, q) && at[q] != at[p];
    forall j: int
      ensures q + [j] !in at && (|q| == 3 ==> q + [j] !in pages)
    {
      Extend(q, j);
      if q + [j] in at {
        PrefixIn(memory, at, q + [j]);
      }
    }
    ShrinkPaths(memory, at, p, i, q);
    var memory': map<int, Slots> := Shrunk(memory, at[p], i, at[q]);
    var at': map<Path, nat> := at - {q};
    forall r | r in at'
      ensures TableOk(memory', at', pages, r)
    {
      ShrinkTable(memory, at, pages, p, i, q, r);
    }
    forall k | k in pages
      ensures k[..3] in at'
    {
      assert k == k[..3] + [k[3]];
    }
  }

  lemma ShrinkTable(memory: map<int, Slots>, at: map<Path, nat>, pages: map<Path, Leaf>, p: Path, i: int, q: Path,
                    r: Path)
    requires Shape(memory, at, pages) && p in at && |p| < 3 && q == p + [i] && q in at && at[q] != at[p] && r in at
    requires r != q
    ensures TableOk(Shrunk(memory, at[p], i, at[q]), at - {q}, pages, r)
  {
    assert TableOk(memory, at, pages, r);
    var memory': map<int, Slots> := Shrunk(memory, at[p], i, at[q]);
    var at': map<Path, nat> := at - {q};
    assert at[r] != at[q] && (at[r] == at[p] ==> r == p);
    forall j: int
      ensures |r| < 3 ==> (j in memory'[at'[r]] && memory'[at'[r]][j].Table? <==> r + [j] in at')
      ensures |r| < 3 && r + [j] in at' ==> memory'[at'[r]][j] == Table(at'[r + [j]])
    {
      SameExtend(r, j, p, i);
    }
  }

  /** A leaf slot of the last level changes, and the map of pages with it. */
  ghost predicate LeafChange(slots: Slots, slots': Slots, pages: map<Path, Leaf>, pages': map<Path, Leaf>, p: Path,
                             i: int) {
    && (forall j: int :: j != i ==> (j in slots' <==> j in slots) && (j in slots ==> slots'[j] == slots[j]))
    && (forall k :: k != p + [i] ==> (k in pages' <==> k in pages) && (k in pages ==> pages'[k] == pages[k]))
    && (i in slots' <==> p + [i] in pages') && (p + [i] in pages' ==> slots'[i] == Page(pages'[p + [i]]))
  }

  lemma SetChange(slots: Slots, pages: map<Path, Leaf>, p: Path, i: int, bits: Leaf)
    ensures LeafChange(slots, slots[i := Page(bits)], pages, pages[p + [i] := bits], p, i)
  {
  }

  lemma ClearChange(slots: Slots, pages: map<Path, Leaf>, p: Path, i: int)
    ensures LeafChange(slots, slots - {i}, pages, pages - {p + [i]}, p, i)
  {
  }

  lemma ClearLean(memory: map<int, Slots>, at: map<Path, nat>, p: Path, slots: Slots)
    requires Paths(memory, at) && p in at && Lean(memory, at, [])
    ensures Lean(memory[at[p] := slots], at, p)
  {
    var memory': map<int, Slots> := memory[at[p] := slots];
    forall r | r in at && r != [] && r != p
      ensures at[r] in memory' && memory'[at[r]] != map[]
    {
      PrefixIn(memory, at, r);
      assert memory[at[r]] != map[];
    }
  }

  /** A filled slot makes its table one that is not empty. */
  lemma SetLean(memory: map<int, Slots>, at: map<Path, nat>, p: Path, slots: Slots, i: int)
    requires Paths(memory, at) && p in at && Lean(memory, at, p) && i in slots
    ensures Lean(memory[at[p] := slots], at, [])
  {
    var memory': map<int, Slots> := memory[at[p] := slots];
    forall r | r in at && r != []
      ensures at[r] in memory' && memory'[at[r]] != map[]
    {
      PrefixIn(memory, at, r);
      assert i in slots;
      assert r != p ==> memory[at[r]] != map[];
    }
  }

  lemma LeafShape(memory: map<int, Slots>, at: map<Path, nat>, pages: map<Path, Leaf>, p: Path, i: int, slots: Slots,
                  pages': map<Path, Leaf>)
    requires Shape(memory, at, pages) && p in at && |p| == 3 && LeafChange(memory[at[p]], slots, pages, pages', p, i)
    ensures Shape(memory[at[p] := slots], at, pages')
  {
    var memory': map<int, Slots> := memory[at[p] := slots];
    Extend(p, i);
    assert Paths(memory', at) by {
      assert memory'.Keys == memory.Keys;
    }
    forall q | q in at
      ensures TableOk(memory', at, pages', q)
    {
      LeafTable(memory, at, pages, p, i, slots, pages', q);
    }
  }

  lemma LeafTable(memory: map<int, Slots>, at: map<Path, nat>, pages: map<Path, Leaf>, p: Path, i: int, slots: Slots,
                  pages': map<Path, Leaf>, q: Path)
    requires Shape(memory, at, pages) && p in at && |p| == 3 && LeafChange(memory[at[p]], slots, pages, pages', p, i)
    requires q in at
    ensures TableOk(memory[at[p] := slots], at, pages', q)
  {
    var memory': map<int, Slots> := memory[at[p] := slots];
    assert TableOk(memory, at, pages, q) && (at[q] == at[p] ==> q == p);
    forall j: int
      ensures |q| == 3 ==> (j in memory'[at[q]] <==> q + [j] in pages') && (q + [j] in pages' ==>
          memory'[at[q]][j] == Page(pages'[q + [j]]))
    {
      SameExtend(q, j, p, i);
    }
  }

  /** How many tables the path still needs, below `p`. */
  ghost function Missing(at: map<Path, nat>, p: Path, rest: Path): nat
    decreases |rest|
  {
    if |rest| <= 1 then 0 else (if p + [rest[0]] in at then 0 else 1) + Missing(at, p + [rest[0]], rest[1..])
  }

  ghost predicate Indices(p: Path) {
    forall i :: 0 <= i < |p| ==> 0 <= p[i] < ENTRIES
  }

  lemma Descend(p: Path, rest: Path)
    requires rest != []
    ensures (p + [rest[0]]) + rest[1..] == p + rest && |p + [rest[0]]| + |rest[1..]| == |p| + |rest|
  {
  }

  /** Every table above a table exists. */
  lemma {:induction false} PrefixChain(memory: map<int, Slots>, at: map<Path, nat>, q: Path, k: nat)
    requires Paths(memory, at) && q in at && k <= |q|
    ensures q[..k] in at
    decreases |q|
  {
    if k == |q| {
      assert q[..k] == q;
    } else {
      PrefixIn(memory, at, q);
      PrefixChain(memory, at, q[..|q| - 1], k);
      assert q[..|q| - 1][..k] == q[..k];
    }
  }

  /** Without the table below `p` the page is not mapped. */
  lemma NoTableNoPage(memory: map<int, Slots>, at: map<Path, nat>, pages: map<Path, Leaf>, p: Path, i: int, rest: Path)
    requires Shape(memory, at, pages) && |p| + |rest| == LEVELS && |rest| > 1 && i == rest[0] && p + [i] !in at
    ensures p + rest !in pages
  {
    var k := p + rest;
    assert k[..3][..|p| + 1] == p + [i];
    if k in pages {
      PrefixChain(memory, at, k[..3], |p| + 1);
    }
  }

  /** A huge page covers the path, below `p`. */
  ghost predicate HugeAbove(memory: map<int, Slots>, at: map<Path, nat>, p: Path, rest: Path)
    decreases |rest|
  {
    |rest| > 1 && p in at && at[p] in memory &&
    if rest[0] in memory[at[p]] && memory[at[p]][rest[0]].Page? then true
    else HugeAbove(memory, at, p + [rest[0]], rest[1..])
  }

  lemma HugeHere(memory: map<int, Slots>, at: map<Path, nat>, pages: map<Path, Leaf>, p: Path, rest: Path)
    requires Shape(memory, at, pages) && p in at && |p| + |rest| == LEVELS && |rest| > 1
    requires rest[0] in memory[at[p]] && memory[at[p]][rest[0]].Page?
    ensures HugeAbove(memory, at, p, rest) && p + rest !in pages
  {
    assert TableOk(memory, at, pages, p);
    var i: int := rest[0];
    assert p + [i] !in at;
    NoTableNoPage(memory, at, pages, p, i, rest);
  }

  lemma MissingHere(memory: map<int, Slots>, at: map<Path, nat>, pages: map<Path, Leaf>, p: Path, rest: Path)
    requires Shape(memory, at, pages) && p in at && |p| + |rest| == LEVELS && |rest| > 1 && rest[0] !in memory[at[p]]
    ensures Missing(at, p, rest) > 0 && p + rest !in pages && !HugeAbove(memory, at, p, rest)
  {
    assert TableOk(memory, at, pages, p);
    var i: int := rest[0];
    assert p + [i] !in at;
    NoTableNoPage(memory, at, pages, p, i, rest);
  }

  lemma {:induction false} MissingGrown(at: map<Path, nat>, q: Path, f: nat, r: Path, rest: Path)
    requires |q| <= |r|
    ensures Missing(at[q := f], r, rest) == Missing(at, r, rest)
    decreases |rest|
  {
    if |rest| > 1 {
      MissingGrown(at, q, f, r + [rest[0]], rest[1..]);
    }
  }

  /** What is known once the missing table is made: nothing is below it, no other is empty. */
  lemma NewTable(memory: map<int, Slots>, at: map<Path, nat>, pages: map<Path, Leaf>, p: Path, i: int, rest: Path,
                 f: nat,
                 memory': map<int, Slots>, at': map<Path, nat>, q: Path)
    requires Shape(memory, at, pages) && Lean(memory, at, p) && p in at && |p| + |rest| == LEVELS && |rest| > 1
    requires i == rest[0]
    requires i !in memory[at[p]] && f !in memory && q == p + [i] && memory' == Grown(memory, at[p], i, f)
    requires at' == at[q := f]
    ensures q !in at && p + rest !in pages && Lean(memory', at', q) && memory'[f] == map[]
    ensures Missing(at, p, rest) == 1 + Missing(at', q, rest[1..])
    ensures !HugeAbove(memory, at, p, rest) && !HugeAbove(memory', at', q, rest[1..])
  {
    assert TableOk(memory, at, pages, p) && q !in at;
    NoTableNoPage(memory, at, pages, p, i, rest);
    MissingGrown(at, q, f, q, rest[1..]);
    GrownLean(memory, at, p, i, f, memory', at', q);
    if |rest| > 2 {
      var j: int := rest[1];
      NothingBelow(memory, at, pages, q);
      assert q + [j] !in at';
    }
  }

  lemma GrownLean(memory: map<int, Slots>, at: map<Path, nat>, p: Path, i: int, f: nat, memory': map<int, Slots>,
                  at': map<Path, nat>, q: Path)
    requires Paths(memory, at) && Lean(memory, at, p) && p in at && f !in memory && q == p + [i] && q !in at
    requires memory' == Grown(memory, at[p], i, f) && at' == at[q := f]
    ensures Lean(memory', at', q)
  {
    forall r | r in at' && r != [] && r != q
      ensures at'[r] in memory' && memory'[at'[r]] != map[]
    {
      PrefixIn(memory, at, r);
      if r == p {
        assert i in memory'[at[p]];
      } else {
        assert memory[at[r]] != map[] && at[r] != at[p];
      }
    }
  }

  /** All of an address space's tables. */
  datatype State = State(memory: map<int, Slots>, pool: set<nat>, at: map<Path, nat>, pages: map<Path, Leaf>)

  ghost predicate WellFormed(s: State) {
    Shape(s.memory, s.at, s.pages) && InRange(s.memory) && forall f :: f in s.pool ==> f !in s.memory
  }

  /** Slots are numbered 0 to 511. */
  ghost predicate InRange(memory: map<int, Slots>) {
    forall f {:trigger memory[f]} :: f in memory ==> forall i :: i in memory[f] ==> 0 <= i < ENTRIES
  }

  /** The frames stay what they are: free, or holding a table. */
  ghost predicate SameFrames(a: State, b: State) {
    b.pool + b.memory.Keys == a.pool + a.memory.Keys
  }

  /** What mapping a page below `p` comes to: the page is added and no table is empty, or nothing
      changes and the error says why. */
  ghost predicate MapResult(a: State, b: State, p: Path, rest: Path, bits: Leaf, r: Outcome<()>) {
    && (r.Failed? ==> b == a) && !Fails(r, NotMapped) && SameFrames(a, b)
    && (r.Done? ==> WellFormed(b) && [] in a.at && b.at[[]] == a.at[[]] && Lean(b.memory, b.at, []))
    && (r.Done? ==> p + rest !in a.pages && b.pages == a.pages[p + rest := bits])
    && (r.Done? ==> b.pool <= a.pool && |a.pool| == |b.pool| + Missing(a.at, p, rest) && (Plain(a) ==> Plain(b)))
    && (Fails(r, AlreadyMapped) <==> p + rest in a.pages)
    && (Fails(r, HugePage) <==> HugeAbove(a.memory, a.at, p, rest))
    && (Fails(r, OutOfFrames) <==> !HugeAbove(a.memory, a.at, p, rest) && |a.pool| < Missing(a.at, p, rest))
  }

  /** No page is a huge one. */
  ghost predicate Plain(s: State) {
    forall q {:trigger s.at[q]} :: q in s.at && |q| < 3 ==> OnlyTables(s.memory, s.at[q])
  }

  lemma {:induction false} NoneHuge(s: State, p: Path, rest: Path)
    requires Plain(s) && |p| + |rest| == LEVELS
    ensures !HugeAbove(s.memory, s.at, p, rest)
    decreases |rest|
  {
    if |rest| > 1 && p in s.at {
      var i: int := rest[0];
      assert OnlyTables(s.memory, s.at[p]);
      assert i in s.memory[s.at[p]] ==> s.memory[s.at[p]][i].Table?;
      NoneHuge(s, p + [i], rest[1..]);
    }
  }

  /** A change to one table of the last level leaves a plain state plain. */
  lemma LeafPlain(a: State, b: State, p: Path, slots: Slots)
    requires WellFormed(a) && Plain(a) && p in a.at && |p| == 3
    requires b.at == a.at && b.memory == a.memory[a.at[p] := slots]
    ensures Plain(b)
  {
    forall q | q in b.at && |q| < 3
      ensures OnlyTables(b.memory, b.at[q])
    {
      assert OnlyTables(a.memory, a.at[q]) && a.at[q] != a.at[p];
    }
  }

  lemma GrownPlain(a: State, mid: State, p: Path, i: int, f: nat)
    requires WellFormed(a) && Plain(a) && p in a.at && |p| < 3 && GrowsTo(a, mid, p, i, f)
    ensures Plain(mid)
  {
    forall q | q in mid.at && |q| < 3
      ensures OnlyTables(mid.memory, mid.at[q])
    {
      if q != p + [i] {
        assert OnlyTables(a.memory, a.at[q]) && OnlyTables(a.memory, a.at[p]);
      }
    }
  }

  lemma ShrunkPlain(b: State, end: State, p: Path, i: int, q: Path)
    requires WellFormed(b) && Plain(b) && p in b.at && |p| < 3 && q == p + [i] && q in b.at && b.at[q] != b.at[p]
    requires end.memory == Shrunk(b.memory, b.at[p], i, b.at[q]) && end.at == b.at - {q}
    ensures Plain(end)
  {
    forall r | r in end.at && |r| < 3
      ensures OnlyTables(end.memory, end.at[r])
    {
      assert OnlyTables(b.memory, b.at[r]) && b.at[r] != b.at[q];
      assert OnlyTables(b.memory, b.at[p]);
    }
  }

  /** The state after a table is made. */
  ghost predicate GrowsTo(a: State, mid: State, p: Path, i: int, f: nat)
    requires p in a.at && a.at[p] in a.memory
  {
    && f in a.pool && mid == State(Grown(a.memory, a.at[p], i, f), a.pool - {f}, a.at[p + [i] := f], a.pages)
  }

  lemma GrownWell(a: State, mid: State, p: Path, i: int, f: nat)
    requires WellFormed(a) && p in a.at && |p| < 3 && i !in a.memory[a.at[p]] && 0 <= i < ENTRIES
    requires GrowsTo(a, mid, p, i, f)
    ensures WellFormed(mid) && p + [i] !in a.at && mid.at[[]] == a.at[[]]
  {
    GrowShape(a.memory, a.at, a.pages, p, i, f);
    GrownRange(a.memory, a.at[p], i, f);
  }

  lemma GrownRange(memory: map<int, Slots>, t: nat, i: int, f: nat)
    requires InRange(memory) && t in memory && 0 <= i < ENTRIES
    ensures InRange(Grown(memory, t, i, f))
  {
  }

  lemma ShrunkWell(a: State, p: Path, i: int, q: Path)
    requires WellFormed(a) && p in a.at && |p| < 3 && q == p + [i] && q in a.at && a.memory[a.at[q]] == map[]
    ensures a.at[q] in a.memory && a.at[q] != a.at[p] && q != []
    ensures WellFormed(State(Shrunk(a.memory, a.at[p], i, a.at[q]), a.pool + {a.at[q]}, a.at - {q}, a.pages))
  {
    ShrinkShape(a.memory, a.at, a.pages, p, i, q);
    assert TableOk(a.memory, a.at, a.pages, p) && TableOk(a.memory, a.at, a.pages, q);
    ShrunkRange(a.memory, a.at[p], i, a.at[q]);
  }

  lemma ShrunkRange(memory: map<int, Slots>, t: nat, i: int, f: nat)
    requires InRange(memory) && t in memory
    ensures InRange(Shrunk(memory, t, i, f))
  {
  }

  lemma LeafSet(a: State, b: State, p: Path, i: int, rest: Path, bits: Leaf)
    requires WellFormed(a) && Lean(a.memory, a.at, p) && p in a.at && |p| == 3 && rest == [i] && 0 <= i < ENTRIES
    requires p + rest !in a.pages
    requires b == a.(memory := a.memory[a.at[p] := a.memory[a.at[p]][i := Page(bits)]],
        pages := a.pages[p + [i] := bits])
    ensures MapResult(a, b, p, rest, bits, Done(()))
  {
    SetChange(a.memory[a.at[p]], a.pages, p, i, bits);
    LeafShape(a.memory, a.at, a.pages, p, i, a.memory[a.at[p]][i := Page(bits)], a.pages[p + [i] := bits]);
    SetLean(a.memory, a.at, p, a.memory[a.at[p]][i := Page(bits)], i);
    LeafFrames(a, b, a.at[p], i, Page(bits));
    if Plain(a) {
      LeafPlain(a, b, p, a.memory[a.at[p]][i := Page(bits)]);
    }
  }

  lemma LeafFrames(a: State, b: State, t: nat, i: int, e: Entry)
    requires t in a.memory && 0 <= i < ENTRIES && InRange(a.memory) && b.memory == a.memory[t := a.memory[t][i := e]]
    requires b.pool == a.pool
    ensures b.memory.Keys == a.memory.Keys && SameFrames(a, b) && InRange(b.memory)
  {
  }

  lemma NoFrameLeft(a: State, p: Path, rest: Path, bits: Leaf)
    requires WellFormed(a) && p in a.at && |p| + |rest| == LEVELS && |rest| > 1 && rest[0] !in a.memory[a.at[p]]
    requires a.pool == {}
    ensures MapResult(a, a, p, rest, bits, Failed(OutOfFrames))
  {
    MissingHere(a.memory, a.at, a.pages, p, rest);
  }

  /** Mapping through a table made on the way. */
  lemma NewResult(a: State, mid: State, b: State, p: Path, i: int, rest: Path, bits: Leaf, f: nat, r: Outcome<()>,
                  end: State)
    requires WellFormed(a) && [] in a.at && Lean(a.memory, a.at, p) && p in a.at && |p| + |rest| == LEVELS && |rest| > 1
    requires i == rest[0]
    requires i !in a.memory[a.at[p]] && GrowsTo(a, mid, p, i, f) && [] in mid.at
    requires MapResult(mid, b, p + [i], rest[1..], bits, r)
    requires end == if r.Failed? then a else b
    ensures MapResult(a, end, p, rest, bits, r)
  {
    NewTable(a.memory, a.at, a.pages, p, i, rest, f, mid.memory, mid.at, p + [i]);
    assert (p + [i]) + rest[1..] == p + rest by {
      Descend(p, rest);
    }
    assert SameFrames(a, end) by {
      GrownFrames(a, mid, p, i, f);
    }
    assert |mid.pool| == |a.pool| - 1;
    assert Plain(a) ==> Plain(mid) by {
      if Plain(a) {
        GrownPlain(a, mid, p, i, f);
      }
    }
    assert mid.pages == a.pages && mid.at[[]] == a.at[[]];
  }

  lemma GrownFrames(a: State, mid: State, p: Path, i: int, f: nat)
    requires p in a.at && a.at[p] in a.memory && GrowsTo(a, mid, p, i, f)
    ensures SameFrames(a, mid)
  {
    assert mid.memory.Keys == a.memory.Keys + {f};
  }

  /** Taking the new table back restores everything. */
  lemma TakenBack(a: State, mid: State, end: State, p: Path, i: int, f: nat)
    requires p in a.at && a.at[p] in a.memory && i !in a.memory[a.at[p]] && f !in a.memory && p + [i] !in a.at
    requires GrowsTo(a, mid, p, i, f)
    requires end == State(Shrunk(mid.memory, a.at[p], i, f), mid.pool + {f}, mid.at - {p + [i]}, mid.pages)
    ensures end == a
  {
    ShrunkGrown(a.memory, a.at[p], i, f);
    assert end.at == a.at;
    assert end.pool == a.pool;
  }

  /** Tables only go away. */
  ghost predicate Fewer(at: map<Path, nat>, at': map<Path, nat>) {
    forall r {:trigger at'[r]} :: r in at' ==> r in at && at'[r] == at[r]
  }

  /** What unmapping a page below `p` comes to: its entry is gone, and no table is empty but
      perhaps the one at `p`, which the caller looks at next. */
  ghost predicate UnmapResult(a: State, b: State, p: Path, rest: Path, r: Outcome<Leaf>) {
    && (r.Failed? ==> b == a) && (r.Failed? <==> p + rest !in a.pages) && SameFrames(a, b)
    && (r.Done? ==> WellFormed(b) && Fewer(a.at, b.at) && Lean(b.memory, b.at, p))
    && (r.Done? ==> a.pool <= b.pool && (Plain(a) ==> Plain(b)))
    && (r.Failed? ==> r.error == if HugeAbove(a.memory, a.at, p, rest) then HugePage else NotMapped)
    && (r.Done? ==> p in b.at && r.value == a.pages[p + rest] && b.pages == a.pages - {p + rest})
  }

  /** Clearing the leaf in the last table of a path. */
  lemma LeafCleared(a: State, b: State, p: Path, i: int, slots: Slots)
    requires WellFormed(a) && Lean(a.memory, a.at, []) && p in a.at && |p| == 3 && a.at[p] in a.memory
    requires i in a.memory[a.at[p]] && slots == a.memory[a.at[p]] - {i}
    requires b == a.(memory := a.memory[a.at[p] := slots], pages := a.pages - {p + [i]})
    ensures WellFormed(b) && Lean(b.memory, b.at, p) && (Plain(a) ==> Plain(b))
  {
    assert Shape(b.memory, b.at, b.pages) by {
      ClearChange(a.memory[a.at[p]], a.pages, p, i);
      LeafShape(a.memory, a.at, a.pages, p, i, slots, b.pages);
    }
    assert Lean(b.memory, b.at, p) by {
      ClearLean(a.memory, a.at, p, slots);
    }
    if Plain(a) {
      LeafPlain(a, b, p, slots);
    }
  }

  lemma StillAbove(a: State, b: State, p: Path, i: int)
    requires WellFormed(b) && Fewer(a.at, b.at) && p + [i] in b.at
    ensures p in b.at && p in a.at && b.at[p] == a.at[p] && p + [i] in a.at && b.at[p + [i]] == a.at[p + [i]]
    ensures [] in b.at && [] in a.at && b.at[[]] == a.at[[]]
  {
    PrefixIn(b.memory, b.at, p + [i]);
    Extend(p, i);
    assert b.at[p] == a.at[p] && b.at[[]] == a.at[[]] && b.at[p + [i]] == a.at[p + [i]];
  }

  /** The table below `p` is not empty: that is all. */
  lemma UnmapKept(a: State, b: State, p: Path, i: int, rest: Path, r: Outcome<Leaf>, q: Path)
    requires |p| + |rest| == LEVELS && |rest| > 1 && i == rest[0] && q == p + [i] && UnmapResult(a, b, q, rest[1..], r)
    requires r.Done? && p in b.at && b.memory[b.at[q]] != map[]
    ensures UnmapResult(a, b, p, rest, r)
  {
    Descend(p, rest);
    assert Lean(b.memory, b.at, p) by {
      assert b.at[q] in b.memory;
    }
  }

  /** It is empty, and freed. */
  lemma UnmapShrunk(a: State, b: State, p: Path, i: int, rest: Path, tail: Path, r: Outcome<Leaf>, q: Path, end: State)
    requires |p| + |rest| == LEVELS && |rest| > 1 && i == rest[0] && tail == rest[1..] && q == p + [i]
    requires UnmapResult(a, b, q, tail, r)
    requires r.Done? && p in b.at && b.at[q] != b.at[p] && WellFormed(end)
    requires end == State(Shrunk(b.memory, b.at[p], i, b.at[q]), b.pool + {b.at[q]}, b.at - {q}, b.pages)
    ensures UnmapResult(a, end, p, rest, r)
  {
    assert q + tail == p + rest && p != q by {
      Descend(p, rest);
      Extend(p, i);
    }
    assert SameFrames(a, end) by {
      ShrunkFrames(b, end, p, i, b.at[q]);
    }
    assert Lean(end.memory, end.at, p) by {
      ShrunkLean(b, end, p, i, q);
    }
    assert Plain(b) ==> Plain(end) by {
      if Plain(b) {
        ShrunkPlain(b, end, p, i, q);
      }
    }
    ShrunkFewer(a.at, b.at, end.at, q);
  }

  lemma ShrunkFrames(b: State, end: State, p: Path, i: int, f: nat)
    requires p in b.at && b.at[p] in b.memory && f in b.memory && f != b.at[p]
    requires end.memory == Shrunk(b.memory, b.at[p], i, f) && end.pool == b.pool + {f}
    ensures SameFrames(b, end)
  {
    assert forall g: int :: g in end.memory <==> g in b.memory && g != f;
  }

  lemma ShrunkFewer(a: map<Path, nat>, b: map<Path, nat>, end: map<Path, nat>, q: Path)
    requires Fewer(a, b) && end == b - {q}
    ensures Fewer(a, end)
  {
    forall r | r in end
      ensures r in a && end[r] == a[r]
    {
      assert b[r] == a[r];
    }
  }

  lemma ShrunkLean(b: State, end: State, p: Path, i: int, q: Path)
    requires WellFormed(b) && p in b.at && q == p + [i] && q in b.at && Lean(b.memory, b.at, q) && b.at[q] != b.at[p]
    requires end.memory == Shrunk(b.memory, b.at[p], i, b.at[q]) && end.at == b.at - {q}
    ensures Lean(end.memory, end.at, p)
  {
    forall r | r in end.at && r != [] && r != p
      ensures end.at[r] in end.memory && end.memory[end.at[r]] != map[]
    {
      PrefixIn(b.memory, b.at, r);
      assert b.memory[b.at[r]] != map[] && b.at[r] != b.at[p] && b.at[r] != b.at[q];
    }
  }

  /** What replacing a page's leaf comes to. */
  ghost predicate RewriteResult(a: State, b: State, p: Path, rest: Path, leaf: Leaf, ok: bool) {
    && (ok <==> p + rest in a.pages) && (!ok ==> b == a) && b.memory.Keys == a.memory.Keys
    && b.at == a.at && b.pool == a.pool
    && (ok ==> WellFormed(b) && Lean(b.memory, b.at, []) && (Plain(a) ==> Plain(b)))
    && (ok ==> b.pages == a.pages[p + rest := leaf])
  }

  lemma LeafRewritten(a: State, b: State, p: Path, i: int, leaf: Leaf)
    requires WellFormed(a) && Lean(a.memory, a.at, []) && p in a.at && |p| == 3 && 0 <= i < ENTRIES
    requires p + [i] in a.pages
    requires b == a.(memory := a.memory[a.at[p] := a.memory[a.at[p]][i := Page(leaf)]],
        pages := a.pages[p + [i] := leaf])
    ensures RewriteResult(a, b, p, [i], leaf, true)
  {
    SetChange(a.memory[a.at[p]], a.pages, p, i, leaf);
    LeafShape(a.memory, a.at, a.pages, p, i, a.memory[a.at[p]][i := Page(leaf)], a.pages[p + [i] := leaf]);
    SetLean(a.memory, a.at, p, a.memory[a.at[p]][i := Page(leaf)], i);
    LeafFrames(a, b, a.at[p], i, Page(leaf));
    if Plain(a) {
      LeafPlain(a, b, p, a.memory[a.at[p]][i := Page(leaf)]);
    }
  }

  // ---- by page number ---------------------------------------------------------------------------------

  /** What mapping a page comes to: the page is added, for as many frames as it had tables missing;
      or nothing changes, because it is mapped or because the frames do not suffice. */
  ghost predicate PageAdded(a: State, leaves: map<int, Leaf>, b: State, leaves': map<int, Leaf>, page: nat, leaf: Leaf,
                            r: Outcome<()>)
  {
    var missing := Missing(a.at, [], PathOf(page));
    && SameFrames(a, b) && b.pool <= a.pool
    && (Fails(r, AlreadyMapped) <==> page in leaves)
    && (Fails(r, OutOfFrames) <==> |a.pool| < missing)
    && match r
       case Done(_) => leaves' == leaves[page := leaf] && |a.pool| == |b.pool| + missing
       case Failed(e) => b == a && leaves' == leaves && (e == AlreadyMapped || e == OutOfFrames)
  }

  /** What unmapping a page comes to: the page is gone, and the tables it alone needed are free. */
  ghost predicate PageRemoved(a: State, leaves: map<int, Leaf>, b: State, leaves': map<int, Leaf>, page: nat,
                              r: Outcome<Leaf>)
  {
    && SameFrames(a, b) && a.pool <= b.pool && leaves' == leaves - {page}
    && r == (if page in leaves then Done(leaves[page]) else Failed(NotMapped)) && (r.Failed? ==> b == a)
  }

  /** The tables under `root` stand for `leaves`; none but the root is empty; no page is huge. */
  ghost predicate StandsFor(s: State, root: nat, leaves: map<int, Leaf>) {
    && WellFormed(s) && s.at[[]] == root && Lean(s.memory, s.at, [])
    && Plain(s) && Numbers(s.pages, leaves)
  }

  /** The maps that the tables under `root` stand for. */
  ghost function Meanings(s: State, root: nat): iset<map<int, Leaf>> {
    iset leaves | StandsFor(s, root, leaves)
  }

  /** There is at most one. */
  lemma OneMeaning(s: State, root: nat, leaves: map<int, Leaf>)
    requires StandsFor(s, root, leaves)
    ensures Meanings(s, root) == Only(leaves)
  {
    forall other | other in Meanings(s, root)
      ensures other == leaves
    {
      SameNumbers(s.pages, leaves, other);
    }
  }

  lemma Meant(s: State, root: nat, leaves: map<int, Leaf>)
    requires Meanings(s, root) == Only(leaves)
    ensures StandsFor(s, root, leaves)
  {
    assert leaves in Only(leaves);
  }

  lemma SameNumbers(pages: map<Path, Leaf>, leaves: map<int, Leaf>, other: map<int, Leaf>)
    requires Numbers(pages, leaves) && Numbers(pages, other)
    ensures other == leaves
  {
    forall v: int
      ensures v in other <==> v in leaves
      ensures v in other ==> other[v] == leaves[v]
    {
      if v >= 0 {
        assert |PathOf(v)| == LEVELS;
      }
    }
    assert other.Keys == leaves.Keys;
  }

  lemma PageResult(a: State, root: nat, leaves: map<int, Leaf>, b: State, leaves': map<int, Leaf>, page: nat, k: Path,
                   leaf: Leaf, r: Outcome<()>)
    requires StandsFor(a, root, leaves) && page < PAGES && k == PathOf(page) && MapResult(a, b, [], k, leaf, r)
    requires leaves' == if r.Done? then leaves[page := leaf] else leaves
    ensures PageAdded(a, leaves, b, leaves', page, leaf, r) && Meanings(b, root) == Only(leaves')
  {
    assert [] + k == k;
    PageIsAdded(a, root, leaves, b, leaves', page, k, leaf, r);
    if r.Done? {
      AddedStands(a, root, leaves, b, page, k, leaf, r);
    }
    OneMeaning(b, root, leaves');
  }

  lemma PageIsAdded(a: State, root: nat, leaves: map<int, Leaf>, b: State, leaves': map<int, Leaf>, page: nat, k: Path,
                    leaf: Leaf, r: Outcome<()>)
    requires StandsFor(a, root, leaves) && page < PAGES && k == PathOf(page) && [] + k == k
    requires MapResult(a, b, [], k, leaf, r) && leaves' == if r.Done? then leaves[page := leaf] else leaves
    ensures PageAdded(a, leaves, b, leaves', page, leaf, r)
  {
    assert page in leaves <==> k in a.pages;
    NoneHuge(a, [], k);
  }

  lemma AddedStands(a: State, root: nat, leaves: map<int, Leaf>, b: State, page: nat, k: Path, leaf: Leaf,
                    r: Outcome<()>)
    requires StandsFor(a, root, leaves) && page < PAGES && k == PathOf(page) && [] + k == k
    requires MapResult(a, b, [], k, leaf, r) && r.Done?
    ensures StandsFor(b, root, leaves[page := leaf])
  {
    NumbersSet(a.pages, leaves, page, leaf);
  }

  lemma UnpageResult(a: State, root: nat, leaves: map<int, Leaf>, b: State, leaves': map<int, Leaf>, page: nat, k: Path,
                     r: Outcome<Leaf>)
    requires StandsFor(a, root, leaves) && page < PAGES && k == PathOf(page) && UnmapResult(a, b, [], k, r)
    requires leaves' == leaves - {page}
    ensures PageRemoved(a, leaves, b, leaves', page, r) && Meanings(b, root) == Only(leaves')
  {
    assert [] + k == k;
    assert page in leaves <==> k in a.pages;
    if r.Failed? {
      NoneHuge(a, [], k);
      DropAbsent(leaves, page);
    } else {
      RemovedStands(a, root, leaves, b, page, k, r);
    }
    OneMeaning(b, root, leaves');
  }

  lemma DropAbsent(leaves: map<int, Leaf>, page: nat)
    requires page !in leaves
    ensures leaves - {page} == leaves
  {
  }

  lemma RemovedStands(a: State, root: nat, leaves: map<int, Leaf>, b: State, page: nat, k: Path, r: Outcome<Leaf>)
    requires StandsFor(a, root, leaves) && page < PAGES && k == PathOf(page) && [] + k == k
    requires UnmapResult(a, b, [], k, r) && r.Done?
    ensures StandsFor(b, root, leaves - {page})
  {
    NumbersDrop(a.pages, leaves, page);
    assert b.at[[]] == a.at[[]];
  }

  /** What replacing a page's leaf comes to: no frame moves. */
  ghost predicate PageRewritten(a: State, leaves: map<int, Leaf>, b: State, leaves': map<int, Leaf>, page: nat,
                                leaf: Leaf,
                                ok: bool)
  {
    && b.memory.Keys == a.memory.Keys && b.pool == a.pool && b.at == a.at && (ok <==> page in leaves)
    && leaves' == if ok then leaves[page := leaf] else leaves
  }

  lemma RewrittenResult(a: State, root: nat, leaves: map<int, Leaf>, b: State, leaves': map<int, Leaf>, page: nat,
                        k: Path,
                        leaf: Leaf, ok: bool)
    requires Meanings(a, root) == Only(leaves) && page < PAGES && k == PathOf(page)
    requires RewriteResult(a, b, [], k, leaf, ok)
    requires leaves' == if ok then leaves[page := leaf] else leaves
    ensures PageRewritten(a, leaves, b, leaves', page, leaf, ok) && Meanings(b, root) == Only(leaves')
  {
    Meant(a, root, leaves);
    assert [] + k == k;
    assert page in leaves <==> k in a.pages;
    if ok {
      NumbersSet(a.pages, leaves, page, leaf);
      assert StandsFor(b, root, leaves');
    }
    OneMeaning(b, root, leaves');
  }

  // ---- teardown --------------------------------------------------------------------------------------

  /** Frame `g` holds a table at or below `q`. */
  ghost predicate Under(at: map<Path, nat>, q: Path, g: int) {
    exists r :: r in at && q <= r && at[r] == g
  }

  /** The tables at and below `q` are all there. */
  ghost predicate Intact(memory: map<int, Slots>, at: map<Path, nat>, pages: map<Path, Leaf>, q: Path) {
    forall r {:trigger TableOk(memory, at, pages, r)} :: r in at && q <= r ==> TableOk(memory, at, pages, r)
  }

  /** Frames of the tables below `q` whose next index is below `n`. */
  ghost predicate UnderPart(at: map<Path, nat>, q: Path, n: int, g: int) {
    exists r :: r in at && q <= r && |r| > |q| && r[|q|] < n && at[r] == g
  }

  /** Tables with a larger index below `q` are untouched while those with smaller ones go. */
  ghost predicate FreedPart(memory: map<int, Slots>, memory': map<int, Slots>, at: map<Path, nat>, q: Path, f: nat,
                            n: int) {
    && (forall g :: g in memory' <==> g in memory && !UnderPart(at, q, n, g))
    && forall g :: g in memory' && g != f ==> memory'[g] == memory[g]
  }

  /** Paths of at most three indices, every table above a table there. */
  ghost predicate Closed(at: map<Path, nat>) {
    Injective(at) && forall r {:trigger at[r]} :: r in at ==> |r| <= 3 && (r != [] ==> r[..|r| - 1] in at)
  }

  lemma {:induction false} ClosedChain(at: map<Path, nat>, r: Path, q: Path)
    requires Closed(at) && r in at && q <= r
    ensures q in at
    decreases |r|
  {
    assert at[r] == at[r];
    if r != q {
      ClosedChain(at, r[..|r| - 1], q);
    }
  }

  /** What is being freed: the tables below `q` with smaller indices are gone. */
  ghost predicate Freeing(memory0: map<int, Slots>, pool0: set<nat>, memory: map<int, Slots>, pool: set<nat>,
                          at: map<Path, nat>, q: Path, f: nat, i: int) {
    && f in memory0 && f in memory && FreedPart(memory0, memory, at, q, f, i)
    && (forall j :: j in memory[f] <==> j in memory0[f] && !(0 <= j < i))
    && (forall j :: j in memory[f] ==> memory[f][j] == memory0[f][j])
    && forall g: nat :: g in pool <==> g in pool0 || UnderPart(at, q, i, g)
  }

  /** The tables below slot `i` are still as they were. */
  lemma StillIntact(memory0: map<int, Slots>, pool0: set<nat>, memory: map<int, Slots>, pool: set<nat>,
                    at: map<Path, nat>, pages: map<Path, Leaf>, q: Path, f: nat, i: int)
    requires Closed(at) && q in at && at[q] == f && Intact(memory0, at, pages, q)
    requires Freeing(memory0, pool0, memory, pool, at, q, f, i)
    ensures Intact(memory, at, pages, q + [i])
  {
    forall r | r in at && q + [i] <= r
      ensures TableOk(memory, at, pages, r)
    {
      assert q <= r && r != q && r[|q|] == i;
      assert TableOk(memory0, at, pages, r) && at[r] != f;
      if UnderPart(at, q, i, at[r]) {
        PartIndex(at, q, i, r);
      }
    }
  }

  lemma PartIndex(at: map<Path, nat>, q: Path, i: int, r: Path)
    requires Injective(at) && r in at && UnderPart(at, q, i, at[r])
    ensures |r| > |q| && r[|q|] < i
  {
    var s :| s in at && q <= s && |s| > |q| && s[|q|] < i && at[s] == at[r];
    assert s == r;
  }

  lemma UnderIs(at: map<Path, nat>, q: Path, r: Path)
    requires Injective(at) && r in at && Under(at, q, at[r])
    ensures q <= r
  {
    var s :| s in at && q <= s && at[s] == at[r];
    assert s == r;
  }

  /** The slot's tables are gone too, and the slot is cleared. */
  lemma SlotFreed(memory0: map<int, Slots>, pool0: set<nat>, memory: map<int, Slots>, pool: set<nat>,
                  memory': map<int, Slots>, pool': set<nat>,
                  at: map<Path, nat>, q: Path, f: nat, i: int)
    requires Closed(at) && q in at && at[q] == f && Freeing(memory0, pool0, memory, pool, at, q, f, i) && f in memory'
    requires 0 <= i
    requires (forall g :: g in memory' <==> g in memory && !Under(at, q + [i], g))
    requires (forall g :: g in memory' && g != f ==> memory'[g] == memory[g])
    requires (forall g: nat :: g in pool' <==> g in pool || Under(at, q + [i], g)) && memory'[f] == memory[f] - {i}
    ensures Freeing(memory0, pool0, memory', pool', at, q, f, i + 1)
  {
    forall g
      ensures UnderPart(at, q, i + 1, g) <==> UnderPart(at, q, i, g) || Under(at, q + [i], g)
    {
      UnderStep(at, q, i, g);
    }
  }

  /** No table, nothing below. */
  lemma NothingUnder(at: map<Path, nat>, q: Path, g: int)
    requires Closed(at) && q !in at
    ensures !Under(at, q, g)
  {
    if Under(at, q, g) {
      var r :| r in at && q <= r && at[r] == g;
      ClosedChain(at, r, q);
    }
  }

  lemma NotUnderItself(at: map<Path, nat>, q: Path, i: int)
    requires Closed(at) && q in at
    ensures !Under(at, q + [i], at[q])
  {
    if Under(at, q + [i], at[q]) {
      UnderIs(at, q + [i], q);
    }
  }

  /** All slots done, and the table itself. */
  lemma AllFreed(at: map<Path, nat>, q: Path, g: int)
    requires Closed(at) && q in at && forall r, i :: r in at && 0 <= i < |r| ==> 0 <= r[i] < ENTRIES
    ensures Under(at, q, g) <==> UnderPart(at, q, ENTRIES, g) || g == at[q]
  {
    if Under(at, q, g) && g != at[q] {
      var r :| r in at && q <= r && at[r] == g;
      assert r != q && |r| > |q|;
    }
    if UnderPart(at, q, ENTRIES, g) {
      var r :| r in at && q <= r && |r| > |q| && r[|q|] < ENTRIES && at[r] == g;
    }
    assert q <= q;
  }

  lemma RootHolds(memory: map<int, Slots>, at: map<Path, nat>, f: int)
    requires Paths(memory, at) && f in memory
    ensures Under(at, [], f)
  {
    assert Holds(at, f);
    var q :| q in at && at[q] == f;
    assert [] <= q;
  }

  lemma HeldFrames(memory: map<int, Slots>, at: map<Path, nat>, f: int)
    requires Paths(memory, at) && Under(at, [], f)
    ensures f in memory
  {
    var q :| q in at && [] <= q && at[q] == f;
    PrefixIn(memory, at, q);
  }

  /** All paths of a well-formed state are closed, in range, and lead to tables that are there. */
  lemma AllPaths(s: State)
    requires WellFormed(s)
    ensures Closed(s.at) && Intact(s.memory, s.at, s.pages, [])
    ensures forall r, i :: r in s.at && 0 <= i < |r| ==> 0 <= r[i] < ENTRIES
  {
    forall r, i | r in s.at && 0 <= i < |r|
      ensures 0 <= r[i] < ENTRIES
    {
      PathInRange(s, r, i);
    }
  }

  lemma {:induction false} PathInRange(s: State, r: Path, i: int)
    requires WellFormed(s) && r in s.at && 0 <= i < |r|
    ensures 0 <= r[i] < ENTRIES
    decreases |r|
  {
    PrefixIn(s.memory, s.at, r);
    var q, j: int := r[..|r| - 1], r[|r| - 1];
    if i < |q| {
      PathInRange(s, q, i);
    } else {
      assert r == q + [j] && TableOk(s.memory, s.at, s.pages, q);
      assert j in s.memory[s.at[q]];
    }
  }

  lemma UnderStep(at: map<Path, nat>, q: Path, n: int, g: int)
    ensures UnderPart(at, q, n + 1, g) <==> UnderPart(at, q, n, g) || Under(at, q + [n], g)
  {
    if UnderPart(at, q, n + 1, g) && !UnderPart(at, q, n, g) {
      var r :| r in at && q <= r && |r| > |q| && r[|q|] < n + 1 && at[r] == g;
      assert q + [n] <= r;
    }
    if Under(at, q + [n], g) {
      var r :| r in at && q + [n] <= r && at[r] == g;
      assert q <= r && r[|q|] == n;
    }
  }

  /** A page is missing at most the three tables below the root. */
  lemma {:induction false} FewMissing(at: map<Path, nat>, p: Path, rest: Path)
    ensures Missing(at, p, rest) < |rest| || rest == []
    decreases |rest|
  {
    if |rest| > 1 {
      FewMissing(at, p + [rest[0]], rest[1..]);
    }
  }

  lemma SubsetSize(a: set<nat>, b: set<nat>)
    requires a <= b
    ensures |a| <= |b|
  {
    assert b == a + (b - a);
  }

  method Pick(frames: set<nat>) returns (f: nat)
    requires frames != {}
    ensures f in frames
  {
    f :| f in frames;
  }

  class Space {
    const root: nat
    /** The table frames in use, and the free frames. */
    var memory: map<int, Slots>
    var pool: set<nat>
    ghost var at: map<Path, nat>
    ghost var pages: map<Path, Leaf>
    /** The same by page number: the map the tables are for. */
    ghost var leaves: map<int, Leaf>

    ghost function Now(): State
      reads this
    {
      State(memory, pool, at, pages)
    }

    ghost predicate Well()
      reads this
    {
      WellFormed(Now()) && at[[]] == root
    }

    /** The tables stand for `pages`, and none but the root is empty. */
    ghost predicate Tidy()
      reads this
    {
      Well() && Lean(memory, at, [])
    }

    /** The tables stand for `leaves` and nothing else. */
    ghost predicate Valid()
      reads this
    {
      Meanings(Now(), root) == Only(leaves)
    }

    /** The root is one of the free frames; the kernel half of it is not modelled. */
    constructor (frames: set<nat>, first: nat)
      requires first in frames
      ensures Valid() && leaves == map[] && pool == frames - {first} && memory.Keys == {first} && root == first
    {
      root := first;
      memory, pool, at, pages := map[first := map[]], frames - {first}, map[[] := first], map[];
      leaves := map[];
      new;
      assert at[[]] == first;
      forall i: int
        ensures [] + [i] !in at
      {
      }
      assert TableOk(memory, at, pages, []);
      OneMeaning(Now(), root, leaves);
    }

    /** A new table for slot `i`, if a frame is free. */
    method Grow(ghost p: Path, t: nat, i: int) returns (f: Option<nat>)
      requires Well() && p in at && at[p] == t && |p| < 3 && i !in memory[t] && 0 <= i < ENTRIES
      modifies this`memory, this`pool, this`at
      ensures Well() && (f.None? ==> pool == {} && memory == old(memory) && at == old(at) && pool == old(pool))
      ensures f.Some? ==>
            f.value in old(pool) && f.value !in old(memory) && pool == old(pool) - {f.value} && p + [i] !in old(at)
      ensures f.Some? ==> memory == Grown(old(memory), t, i, f.value) && at == old(at)[p + [i] := f.value]
    {
      if |pool| == 0 {
        return None;
      }
      var g := Pick(pool);
      ghost var was := Now();
      pool := pool - {g};
      memory := memory[t := memory[t][i := Table(g)]][g := map[]];
      at := at[p + [i] := g];
      GrownWell(was, Now(), p, i, g);
      return Some(g);
    }

    /** An empty table goes back to the pool. */
    method Shrink(ghost p: Path, t: nat, i: int, f: nat)
      requires Well() && p in at && at[p] == t && |p| < 3 && p + [i] in at && at[p + [i]] == f && memory[f] == map[]
      modifies this`memory, this`pool, this`at
      ensures Well() && memory == Shrunk(old(memory), t, i, f) && at == old(at) - {p + [i]} && pool == old(pool) + {f}
      ensures f in old(memory) && f != t
    {
      ghost var was := Now();
      ShrunkWell(was, p, i, p + [i]);
      memory := (memory - {f})[t := memory[t] - {i}];
      pool := pool + {f};
      at := at - {p + [i]};
    }

    /** `map_page_in_root` from the table at `p` on: the page is added, or the reason it cannot
        be and everything as it was, the tables made on the way given back. */
    method MapFrom(ghost p: Path, t: nat, rest: Path, bits: Leaf) returns (r: Outcome<()>)
      requires Well() && Lean(memory, at, p) && p in at && at[p] == t && |p| + |rest| == LEVELS && rest != []
      requires Indices(rest)
      modifies this`memory, this`pool, this`at, this`pages
      ensures MapResult(old(Now()), Now(), p, rest, bits, r)
      decreases |rest|, 1
    {
      var i := rest[0];
      assert TableOk(memory, at, pages, p);
      if |rest| == 1 {
        r := SetLeaf(p, t, i, rest, bits);
      } else if i in memory[t] && memory[t][i].Page? {
        HugeHere(memory, at, pages, p, rest);
        r := Failed(HugePage);
      } else if i in memory[t] {
        Descend(p, rest);
        assert p + [i] in at;
        r := MapFrom(p + [i], memory[t][i].frame, rest[1..], bits);
      } else {
        r := MapNew(p, t, rest, bits);
      }
    }

    method SetLeaf(ghost p: Path, t: nat, i: int, ghost rest: Path, bits: Leaf) returns (r: Outcome<()>)
      requires Well() && Lean(memory, at, p) && p in at && at[p] == t && |p| == 3 && rest == [i] && 0 <= i < ENTRIES
      modifies this`memory, this`pages
      ensures MapResult(old(Now()), Now(), p, rest, bits, r)
    {
      assert TableOk(memory, at, pages, p);
      if i in memory[t] {
        return Failed(AlreadyMapped);
      }
      ghost var was := Now();
      memory := memory[t := memory[t][i := Page(bits)]];
      pages := pages[p + [i] := bits];
      LeafSet(was, Now(), p, i, rest, bits);
      return Done(());
    }

    /** The table is missing: make it, go on, and take it back if that fails. */
    method MapNew(ghost p: Path, t: nat, rest: Path, bits: Leaf) returns (r: Outcome<()>)
      requires Well() && Lean(memory, at, p) && p in at && at[p] == t && |p| + |rest| == LEVELS && |rest| > 1
      requires rest[0] !in memory[t] && Indices(rest)
      modifies this`memory, this`pool, this`at, this`pages
      ensures MapResult(old(Now()), Now(), p, rest, bits, r)
      decreases |rest|, 0
    {
      var i := rest[0];
      ghost var was := Now();
      var f := Grow(p, t, i);
      if f.None? {
        NoFrameLeft(was, p, rest, bits);
        return Failed(OutOfFrames);
      }
      NewTable(was.memory, was.at, was.pages, p, i, rest, f.value, memory, at, p + [i]);
      Descend(p, rest);
      ghost var mid := Now();
      r := MapFrom(p + [i], f.value, rest[1..], bits);
      NewResult(was, mid, Now(), p, i, rest, bits, f.value, r, if r.Failed? then was else Now());
      if r.Failed? {
        TakeBack(p, t, i, f.value, was);
      }
    }

    /** The tables and the pool are as they were before the table was made. */
    method TakeBack(ghost p: Path, t: nat, i: int, f: nat, ghost was: State)
      requires Well() && p in at && at[p] == t && |p| < 3 && p in was.at && was.at[p] == t && t in was.memory
      requires i !in was.memory[t] && f !in was.memory && p + [i] !in was.at && GrowsTo(was, Now(), p, i, f)
      modifies this`memory, this`pool, this`at
      ensures Now() == was
    {
      ghost var mid := Now();
      Shrink(p, t, i, f);
      TakenBack(was, mid, Now(), p, i, f);
    }

    /** `map_page_in_root`: one page is added, or nothing changes and the error says why. */
    method Map(page: nat, leaf: Leaf) returns (r: Outcome<()>)
      requires Valid() && page < PAGES
      modifies this
      ensures Valid() && PageAdded(old(Now()), old(leaves), Now(), leaves, page, leaf, r)
    {
      ghost var was := Now();
      Meant(was, root, leaves);
      var k := PathOf(page);
      r := MapFrom([], root, k, leaf);
      ghost var before := leaves;
      leaves := if r.Done? then leaves[page := leaf] else leaves;
      PageResult(was, root, before, Now(), leaves, page, k, leaf, r);
    }

    /** `unmap_page_in_root` from the table at `p` on. */
    method UnmapFrom(ghost p: Path, t: nat, rest: Path) returns (r: Outcome<Leaf>)
      requires Tidy() && p in at && at[p] == t && |p| + |rest| == LEVELS && rest != []
      modifies this`memory, this`pool, this`at, this`pages
      ensures UnmapResult(old(Now()), Now(), p, rest, r)
      decreases |rest|
    {
      var i := rest[0];
      assert TableOk(memory, at, pages, p);
      if |rest| == 1 {
        r := ClearLeaf(p, t, i, rest);
        return;
      }
      if i !in memory[t] {
        MissingHere(memory, at, pages, p, rest);
        return Failed(NotMapped);
      }
      if memory[t][i].Page? {
        HugeHere(memory, at, pages, p, rest);
        return Failed(HugePage);
      }
      assert p + [i] in at;
      r := UnmapBelow(p, t, i, memory[t][i].frame, rest);
    }

    method UnmapBelow(ghost p: Path, t: nat, i: int, f: nat, rest: Path) returns (r: Outcome<Leaf>)
      requires Tidy() && p in at && at[p] == t && |p| + |rest| == LEVELS && |rest| > 1 && i == rest[0]
      requires p + [i] in at && at[p + [i]] == f
      modifies this`memory, this`pool, this`at, this`pages
      ensures UnmapResult(old(Now()), Now(), p, rest, r)
      decreases |rest|, 0
    {
      ghost var was := Now();
      Descend(p, rest);
      assert TableOk(memory, at, pages, p);
      assert !HugeAbove(memory, at, p, rest) || HugeAbove(memory, at, p + [i], rest[1..]);
      r := UnmapFrom(p + [i], f, rest[1..]);
      if r.Done? {
        FreeIfEmpty(p, t, i, f, rest, was, r);
      }
    }

    method FreeIfEmpty(ghost p: Path, t: nat, i: int, f: nat, ghost rest: Path, ghost was: State,
                       ghost r: Outcome<Leaf>)
      requires WellFormed(was) && |p| + |rest| == LEVELS && |rest| > 1 && i == rest[0] && r.Done?
      requires p in was.at && was.at[p] == t && p + [i] in was.at && was.at[p + [i]] == f && was.at[[]] == root
      requires UnmapResult(was, Now(), p + [i], rest[1..], r)
      modifies this`memory, this`pool, this`at
      ensures UnmapResult(was, Now(), p, rest, r)
    {
      ghost var below := Now();
      StillAbove(was, below, p, i);
      if memory[f] == map[] {
        FreeBelow(p, t, i, f, rest, was, r);
      } else {
        UnmapKept(was, below, p, i, rest, r, p + [i]);
      }
    }

    method FreeBelow(ghost p: Path, t: nat, i: int, f: nat, ghost rest: Path, ghost was: State, ghost r: Outcome<Leaf>)
      requires Well() && |p| + |rest| == LEVELS && |rest| > 1 && i == rest[0] && r.Done?
      requires p in at && at[p] == t && p + [i] in at && at[p + [i]] == f && memory[f] == map[]
      requires UnmapResult(was, Now(), p + [i], rest[1..], r)
      modifies this`memory, this`pool, this`at
      ensures UnmapResult(was, Now(), p, rest, r)
    {
      ghost var below := Now();
      Shrink(p, t, i, f);
      UnmapShrunk(was, below, p, i, rest, rest[1..], r, p + [i], Now());
    }

    method ClearLeaf(ghost p: Path, t: nat, i: int, ghost rest: Path) returns (r: Outcome<Leaf>)
      requires Tidy() && p in at && at[p] == t && |p| == 3 && rest == [i]
      modifies this`memory, this`pages
      ensures UnmapResult(old(Now()), Now(), p, rest, r)
    {
      assert TableOk(memory, at, pages, p);
      assert i in memory[t] <==> p + [i] in pages;
      if i !in memory[t] {
        return Failed(NotMapped);
      }
      r := Done(memory[t][i].leaf);
      ghost var was := Now();
      memory := memory[t := memory[t] - {i}];
      pages := pages - {p + [i]};
      LeafCleared(was, Now(), p, i, memory[t]);
    }

    /** `unmap_page_in_root`: one page is removed, if it was mapped. */
    method Unmap(page: nat) returns (r: Outcome<Leaf>)
      requires Valid() && page < PAGES
      modifies this
      ensures Valid() && PageRemoved(old(Now()), old(leaves), Now(), leaves, page, r)
    {
      ghost var was := Now();
      Meant(was, root, leaves);
      var k := PathOf(page);
      r := UnmapFrom([], root, k);
      ghost var before := leaves;
      leaves := leaves - {page};
      UnpageResult(was, root, before, Now(), leaves, page, k, r);
    }

    /** A frame for something that is not a table. */
    method TakeFrame() returns (f: Option<nat>)
      requires Valid()
      modifies this`pool
      ensures Valid() && (f.None? <==> old(pool) == {})
      ensures f.None? ==> pool == old(pool)
      ensures f.Some? ==> f.value in old(pool) && f.value !in memory && pool == old(pool) - {f.value}
    {
      if |pool| == 0 {
        return None;
      }
      var g := Pick(pool);
      Meant(Now(), root, leaves);
      pool := pool - {g};
      OneMeaning(Now(), root, leaves);
      return Some(g);
    }

    /** ... and its return. */
    method GiveFrame(f: nat)
      requires Valid() && f !in memory
      modifies this`pool
      ensures Valid() && pool == old(pool) + {f}
    {
      Meant(Now(), root, leaves);
      pool := pool + {f};
      OneMeaning(Now(), root, leaves);
    }

    /** `page_entry_inner`: the leaf of a page. */
    method Lookup(page: nat) returns (r: Outcome<Leaf>)
      requires Valid() && page < PAGES
      ensures r.Done? <==> page in leaves
      ensures r.Done? ==> r.value == leaves[page]
    {
      Meant(Now(), root, leaves);
      assert [] + PathOf(page) == PathOf(page);
      r := LookupFrom([], root, PathOf(page));
    }

    /** The entry of a page, found by walking down. */
    method LookupFrom(ghost p: Path, t: nat, rest: Path) returns (r: Outcome<Leaf>)
      requires Well() && p in at && at[p] == t && |p| + |rest| == LEVELS && rest != []
      ensures r.Done? <==> p + rest in pages
      ensures r.Done? ==> r.value == pages[p + rest]
      decreases |rest|
    {
      var i := rest[0];
      assert TableOk(memory, at, pages, p);
      if |rest| == 1 {
        assert rest == [i] && (i in memory[t] <==> p + [i] in pages);
        return if i in memory[t] then Done(memory[t][i].leaf) else Failed(NotMapped);
      }
      if i !in memory[t] {
        MissingHere(memory, at, pages, p, rest);
        return Failed(NotMapped);
      }
      if memory[t][i].Page? {
        HugeHere(memory, at, pages, p, rest);
        return Failed(HugePage);
      }
      assert p + [i] in at;
      Descend(p, rest);
      r := LookupFrom(p + [i], memory[t][i].frame, rest[1..]);
    }

    /** Writing through `leaf_slot`: one page's leaf is replaced, if it is mapped. */
    method Rewrite(page: nat, leaf: Leaf) returns (ok: bool)
      requires Valid() && page < PAGES
      modifies this
      ensures Valid() && PageRewritten(old(Now()), old(leaves), Now(), leaves, page, leaf, ok)
    {
      ghost var was := Now();
      var k := PathOf(page);
      ok := RewriteIn(k, leaf);
      ghost var before := leaves;
      leaves := if ok then leaves[page := leaf] else leaves;
      RewrittenResult(was, root, before, Now(), leaves, page, k, leaf, ok);
    }

    method RewriteIn(k: Path, leaf: Leaf) returns (ok: bool)
      requires Valid() && IsPath(k)
      modifies this`memory, this`pages
      ensures RewriteResult(old(Now()), Now(), [], k, leaf, ok)
    {
      Meant(Now(), root, leaves);
      ok := RewriteFrom([], root, k, leaf);
    }

    method RewriteFrom(ghost p: Path, t: nat, rest: Path, leaf: Leaf) returns (ok: bool)
      requires Tidy() && p in at && at[p] == t && |p| + |rest| == LEVELS && rest != [] && Indices(rest)
      modifies this`memory, this`pages
      ensures RewriteResult(old(Now()), Now(), p, rest, leaf, ok)
      decreases |rest|
    {
      var i := rest[0];
      assert TableOk(memory, at, pages, p);
      if |rest| == 1 {
        assert rest == [i] && (i in memory[t] <==> p + [i] in pages);
        if i !in memory[t] {
          return false;
        }
        ghost var was := Now();
        memory := memory[t := memory[t][i := Page(leaf)]];
        pages := pages[p + [i] := leaf];
        LeafRewritten(was, Now(), p, i, leaf);
        return true;
      }
      if i !in memory[t] {
        MissingHere(memory, at, pages, p, rest);
        return false;
      }
      if memory[t][i].Page? {
        HugeHere(memory, at, pages, p, rest);
        return false;
      }
      assert p + [i] in at;
      Descend(p, rest);
      ok := RewriteFrom(p + [i], memory[t][i].frame, rest[1..], leaf);
    }

    /** `free_table_tree`: every table frame at and below `q` goes back to the pool. */
    method FreeTree(ghost q: Path, f: nat)
      requires q in at && at[q] == f && Intact(memory, at, pages, q) && Closed(at)
      requires forall r, i :: r in at && 0 <= i < |r| ==> 0 <= r[i] < ENTRIES
      modifies this`memory, this`pool
      ensures forall g :: g in memory <==> g in old(memory) && !Under(at, q, g)
      ensures forall g :: g in memory ==> memory[g] == old(memory)[g]
      ensures forall g: nat :: g in pool <==> g in old(pool) || Under(at, q, g)
      decreases 3 - |q|, 1
    {
      assert TableOk(memory, at, pages, q) && at[q] == f;
      assert forall g :: !UnderPart(at, q, 0, g);
      var i: nat := 0;
      while i < ENTRIES
        invariant i <= ENTRIES && Freeing(old(memory), old(pool), memory, pool, at, q, f, i)
      {
        FreeSlot(q, f, i, old(memory), old(pool));
        i := i + 1;
      }
      memory := memory - {f};
      pool := pool + {f};
      forall g
        ensures Under(at, q, g) <==> UnderPart(at, q, ENTRIES, g) || g == f
      {
        AllFreed(at, q, g);
      }
    }

    method FreeSlot(ghost q: Path, f: nat, i: nat, ghost memory0: map<int, Slots>, ghost pool0: set<nat>)
      requires q in at && at[q] == f && Intact(memory0, at, pages, q) && Closed(at)
      requires Freeing(memory0, pool0, memory, pool, at, q, f, i)
      requires forall r, i :: r in at && 0 <= i < |r| ==> 0 <= r[i] < ENTRIES
      modifies this`memory, this`pool
      ensures Freeing(memory0, pool0, memory, pool, at, q, f, i + 1)
      decreases 3 - |q|, 0
    {
      assert TableOk(memory0, at, pages, q) && at[q] == f;
      assert |q| < 3 ==> (i in memory0[f] && memory0[f][i].Table? <==> q + [i] in at);
      StillIntact(memory0, pool0, memory, pool, at, pages, q, f, i);
      NotUnderItself(at, q, i);
      if i in memory[f] && memory[f][i].Table? {
        FreeTree(q + [i], memory[f][i].frame);
      } else {
        forall g
          ensures !Under(at, q + [i], g)
        {
          NothingUnder(at, q + [i], g);
        }
      }
      memory := memory[f := memory[f] - {i}];
      SlotFreed(memory0, pool0, old(memory), old(pool), memory, pool, at, q, f, i);
    }

    /** Dropping the address space returns every table frame. */
    method Teardown()
      requires Valid()
      modifies this`memory, this`pool, this`at, this`pages
      ensures memory == map[] && forall f: nat :: f in pool <==> f in old(pool) || f in old(memory)
    {
      Meant(Now(), root, leaves);
      AllPaths(Now());
      FreeTree([], root);
      assert forall f :: f in old(memory) ==> Under(at, [], f) by {
        forall f | f in old(memory)
          ensures Under(at, [], f)
        {
          RootHolds(old(memory), at, f);
        }
      }
      forall f: nat | Under(at, [], f)
        ensures f in old(memory)
      {
        HeldFrames(old(memory), at, f);
      }
      assert forall g :: g !in memory;
      assert memory == map[];
      at, pages := map[], map[];
    }
  }
}
