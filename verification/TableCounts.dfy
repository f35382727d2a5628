/** How many table frames a set of pages takes: one for each table below the root that leads to one
    of them. A page table holds no others, so what is left of a pool follows from the pages alone.
  */
module TableCounts {
  import opened Outcomes
  import opened PageLeaves
  import opened PageTables

  /** The tables below the root on the way to a page. */
  ghost function Above(page: nat): set<Path> {
    {PathOf(page)[..1], PathOf(page)[..2], PathOf(page)[..3]}
  }

  ghost function TablesFor(pages: set<nat>): set<Path> {
    set page, q | page in pages && q in Above(page) :: q
  }

  ghost function TableCount(pages: set<nat>): nat {
    |TablesFor(pages)|
  }

  lemma Subset<T>(a: set<T>, b: set<T>)
    requires a <= b
    ensures |a| <= |b|
  {
    assert b == a + (b - a);
  }

  lemma CountGrows(a: set<nat>, b: set<nat>)
    requires a <= b
    ensures TableCount(a) <= TableCount(b)
  {
    Subset(TablesFor(a), TablesFor(b));
  }

  lemma OnePageMore(pages: set<nat>, page: nat)
    ensures TablesFor(pages + {page}) == TablesFor(pages) + Above(page)
  {
    forall q | q in Above(page)
      ensures q in TablesFor(pages + {page})
    {
      assert page in pages + {page};
    }
  }

  /** Three tables a page at most. */
  lemma {:induction false} FewTables(pages: set<nat>)
    ensures TableCount(pages) <= 3 * |pages|
  {
    if pages != {} {
      var page :| page in pages;
      FewTables(pages - {page});
      OnePageMore(pages - {page}, page);
      assert pages - {page} + {page} == pages;
    }
  }

  // ---- the tables there are ---------------------------------------------------------------------------

  /** The tables on the way to a mapped page are there. */
  lemma TablesThere(s: State, root: nat, leaves: map<int, Leaf>, page: nat)
    requires StandsFor(s, root, leaves) && page in leaves
    ensures Above(page) <= s.at.Keys
  {
    var k := PathOf(page);
    assert k in s.pages;
    assert k[..3] in s.at;
    PrefixIn(s.memory, s.at, k[..3]);
    assert k[..3][..2] == k[..2];
    PrefixIn(s.memory, s.at, k[..2]);
    assert k[..2][..1] == k[..1];
  }

  lemma SomeSlot(slots: Slots) returns (i: int)
    requires slots != map[]
    ensures i in slots
  {
    assert exists j: int :: j in slots by {
      if forall j: int :: j !in slots {
        assert false;
      }
    }
    i :| i in slots;
  }

  /** Every table below the root leads to some page, since none is empty. */
  lemma {:induction false} LeadsToPage(s: State, root: nat, leaves: map<int, Leaf>, q: Path) returns (page: nat)
    requires StandsFor(s, root, leaves) && q in s.at && q != []
    ensures page in leaves && |q| <= 3 && PathOf(page)[..|q|] == q
    decreases 3 - |q|
  {
    PrefixIn(s.memory, s.at, q);
    var slots := s.memory[s.at[q]];
    var i := SomeSlot(slots);
    assert TableOk(s.memory, s.at, s.pages, q);
    Extend(q, i);
    if |q| == 3 {
      assert q + [i] in s.pages;
      NumbersCover(s.pages, leaves, q + [i]);
      PathOfPage(q + [i]);
      page := PageAt(q + [i]);
    } else {
      assert OnlyTables(s.memory, s.at[q]);
      assert q + [i] in s.at;
      page := LeadsToPage(s, root, leaves, q + [i]);
      assert PathOf(page)[..|q|] == PathOf(page)[..|q| + 1][..|q|];
    }
  }

  lemma TableNeeded(s: State, root: nat, leaves: map<int, Leaf>, pages: set<nat>, q: Path)
    requires StandsFor(s, root, leaves) && (forall v: nat :: v in leaves ==> v in pages) && q in s.at && q != []
    ensures q in TablesFor(pages)
  {
    var page := LeadsToPage(s, root, leaves, q);
    assert q in Above(page);
  }

  lemma NeededThere(s: State, root: nat, leaves: map<int, Leaf>, pages: set<nat>, q: Path)
    requires StandsFor(s, root, leaves) && (forall v: nat :: v in pages ==> v in leaves) && q in TablesFor(pages)
    ensures q in s.at && q != []
  {
    var page: nat :| page in pages && q in Above(page);
    TablesThere(s, root, leaves, page);
    assert q in s.at.Keys;
  }

  /** `at` has exactly the tables that the pages need, and the root. */
  ghost predicate Exact(at: map<Path, nat>, pages: set<nat>) {
    forall q :: q in at && q != [] <==> q in TablesFor(pages)
  }

  lemma TablesExact(s: State, root: nat, leaves: map<int, Leaf>, pages: set<nat>)
    requires StandsFor(s, root, leaves) && forall v: nat :: v in pages <==> v in leaves
    ensures Exact(s.at, pages)
  {
    forall q
      ensures q in s.at && q != [] <==> q in TablesFor(pages)
    {
      if q in s.at && q != [] {
        TableNeeded(s, root, leaves, pages, q);
      }
      if q in TablesFor(pages) {
        NeededThere(s, root, leaves, pages, q);
      }
    }
  }

  lemma MissingThree(at: map<Path, nat>, a: Path, b: Path, c: Path, w: int, x: int, y: int, z: int)
    requires a == [w] && b == [w, x] && c == [w, x, y]
    ensures Missing(at, [], [w, x, y, z]) ==
            (if a in at then 0 else 1) + (if b in at then 0 else 1) + (if c in at then 0 else 1)
  {
    assert [] + [w] == a && a + [x] == b && b + [y] == c;
    assert [w, x, y, z][1..] == [x, y, z] && [x, y, z][1..] == [y, z] && [y, z][1..] == [z];
    assert Missing(at, b, [y, z]) == (if c in at then 0 else 1) + Missing(at, c, [z]);
    assert Missing(at, a, [x, y, z]) == (if b in at then 0 else 1) + Missing(at, b, [y, z]);
  }

  lemma AtMostThree(a: Path, b: Path, c: Path, have: set<Path>)
    requires |a| == 1 && |b| == 2 && |c| == 3
    ensures |{a, b, c} - have| ==
            (if a in have then 0 else 1) + (if b in have then 0 else 1) + (if c in have then 0 else 1)
  {
    var x, y, z := {a} - have, {b} - have, {c} - have;
    assert a != b && b != c && a != c;
    assert {a, b, c} - have == x + y + z;
    assert |x + y| == |x| + |y|;
    assert |x + y + z| == |x + y| + |z|;
  }

  /** A page misses the tables above it that are not there yet. */
  lemma MissingIs(at: map<Path, nat>, page: nat)
    ensures Missing(at, [], PathOf(page)) == |Above(page) - at.Keys|
  {
    var k := PathOf(page);
    assert k == [k[0], k[1], k[2], k[3]];
    MissingThree(at, k[..1], k[..2], k[..3], k[0], k[1], k[2], k[3]);
    AtMostThree(k[..1], k[..2], k[..3], at.Keys);
  }

  lemma AddsRest(a: set<Path>, b: set<Path>, have: set<Path>)
    requires forall q :: q in b ==> (q in have <==> q in a)
    ensures |a + b| == |a| + |b - have|
  {
    assert a + b == a + (b - have);
    assert a !! b - have;
  }

  lemma RootIsNotAbove(page: nat)
    ensures [] !in Above(page)
  {
  }

  lemma NewTables(at: map<Path, nat>, pages: set<nat>, page: nat)
    requires Exact(at, pages)
    ensures TableCount(pages + {page}) == TableCount(pages) + |Above(page) - at.Keys|
  {
    var need, above := TablesFor(pages), Above(page);
    assert [] !in above by {
      RootIsNotAbove(page);
    }
    assert TablesFor(pages + {page}) == need + above by {
      OnePageMore(pages, page);
    }
    AddsRest(need, above, at.Keys);
  }

  /** The tables a page misses are what it adds to the count. */
  lemma MissingCounts(s: State, root: nat, leaves: map<int, Leaf>, pages: set<nat>, page: nat)
    requires StandsFor(s, root, leaves) && forall v: nat :: v in pages <==> v in leaves
    ensures TableCount(pages + {page}) == TableCount(pages) + Missing(s.at, [], PathOf(page))
  {
    TablesExact(s, root, leaves, pages);
    NewTables(s.at, pages, page);
    MissingIs(s.at, page);
  }

  lemma MissingInSpace(s: State, root: nat, leaves: map<int, Leaf>, pages: set<nat>, page: nat)
    requires Meanings(s, root) == Only(leaves) && forall v: nat :: v in pages <==> v in leaves
    ensures TableCount(pages + {page}) == TableCount(pages) + Missing(s.at, [], PathOf(page))
  {
    Meant(s, root, leaves);
    MissingCounts(s, root, leaves, pages, page);
  }
}
