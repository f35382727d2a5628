/** Maximal aligned free blocks of a set of free frames: what the buddy lists index, and how
    that collection changes when a block is taken out or put back. */
module FreeBlocks {
  import opened Dyadic

  const MAX_ORDER: nat := 18

  /** The frames of a block. */
  ghost function Block(f: nat, o: nat): set<nat> {
    set x: nat | f <= x < f + Pow2(o) && InBlock(x, f, o)
  }

  /** An aligned block of an allowed order, all of it free. */
  ghost predicate FreeBlock(free: set<nat>, f: nat, o: nat) {
    o <= MAX_ORDER && AlignedAt(f, o) && Block(f, o) <= free
  }

  /** ... that is not part of a larger one. */
  ghost predicate Maximal(free: set<nat>, f: nat, o: nat) {
    FreeBlock(free, f, o) && !FreeBlock(free, Down(f, o + 1), o + 1)
  }

  lemma NestedBlocks(x: nat, a: nat, i: nat, b: nat, j: nat)
    requires AlignedAt(a, i) && AlignedAt(b, j) && i <= j && x in Block(a, i) && x in Block(b, j)
    ensures Block(a, i) <= Block(b, j) && Down(a, j) == b
  {
    Nested(x, a, i, b, j);
    forall y | y in Block(a, i)
      ensures y in Block(b, j)
    {
      assert InBlock(y, a, i);
    }
  }

  /** A block lies in the one of the next order up. */
  lemma InParent(f: nat, o: nat)
    requires AlignedAt(f, o)
    ensures AlignedAt(Down(f, o + 1), o + 1) && Block(f, o) <= Block(Down(f, o + 1), o + 1)
    ensures f in Block(f, o)
  {
    AlignedDown(f, o + 1);
    DownBounds(f, o + 1);
    NestedBlocks(f, f, o, Down(f, o + 1), o + 1);
  }

  /** The parent of a strictly smaller block lies in the larger one too. */
  lemma ParentInside(a: nat, i: nat, b: nat, j: nat)
    requires AlignedAt(a, i) && AlignedAt(b, j) && i < j && Block(a, i) <= Block(b, j)
    ensures Block(Down(a, i + 1), i + 1) <= Block(b, j)
  {
    InParent(a, i);
    NestedBlocks(a, Down(a, i + 1), i + 1, b, j);
  }

  /** Two maximal blocks that meet are the same. */
  lemma MaximalMeet(free: set<nat>, x: nat, f: nat, o: nat, g: nat, k: nat)
    requires Maximal(free, f, o) && Maximal(free, g, k) && x in Block(f, o) && x in Block(g, k)
    ensures f == g && o == k
  {
    if o < k {
      NestedBlocks(x, f, o, g, k);
      ParentInside(f, o, g, k);
      InParent(f, o);
    } else if k < o {
      NestedBlocks(x, g, k, f, o);
      ParentInside(g, k, f, o);
      InParent(g, k);
    } else {
      NestedBlocks(x, f, o, g, k);
    }
  }

  /** Every free block lies in a maximal one of at least its order. */
  lemma {:induction false} Enclosing(free: set<nat>, f: nat, o: nat) returns (g: nat, k: nat)
    requires FreeBlock(free, f, o)
    ensures Maximal(free, g, k) && o <= k && g == Down(f, k) && Block(f, o) <= Block(g, k)
    decreases MAX_ORDER - o
  {
    if Maximal(free, f, o) {
      return f, o;
    }
    InParent(f, o);
    g, k := Enclosing(free, Down(f, o + 1), o + 1);
    DownTwice(f, o + 1, k);
  }

  /** Taking a maximal block out removes it from the collection and nothing else. */
  lemma WholeStep(free: set<nat>, f: nat, o: nat, g: nat, k: nat)
    requires Maximal(free, f, o)
    ensures Maximal(free, g, k) <==> Maximal(free - Block(f, o), g, k) || (g == f && k == o)
  {
    var rest := free - Block(f, o);
    if Maximal(free, g, k) && !(g == f && k == o) {
      forall x | x in Block(g, k)
        ensures x !in Block(f, o)
      {
        if x in Block(f, o) {
          MaximalMeet(free, x, f, o, g, k);
        }
      }
      assert FreeBlock(rest, g, k);
    }
    if Maximal(rest, g, k) && FreeBlock(free, Down(g, k + 1), k + 1) {
      var h := Down(g, k + 1);
      InParent(g, k);
      var x :| x in Block(h, k + 1) && x in Block(f, o);
      if k + 1 <= o {
        NestedBlocks(x, h, k + 1, f, o);
      } else {
        NestedBlocks(x, f, o, h, k + 1);
        ParentInside(f, o, h, k + 1);
        InParent(f, o);
      }
      assert false;
    }
  }

  /** With a free block of order `c + 1` kept out, putting one half back adds that half to the
      collection and nothing else. */
  lemma HalfStep(free: set<nat>, f: nat, c: nat, a: nat, b: nat, g: nat, k: nat)
    requires FreeBlock(free, f, c + 1)
    requires (a == f && b == f + Pow2(c)) || (b == f && a == f + Pow2(c))
    ensures Maximal(free - Block(a, c), g, k) <==> Maximal(free - Block(f, c + 1), g, k) || (g == b && k == c)
  {
    Halves(f, c);
    SplitBlock(f, c);
    var with, without := free - Block(a, c), free - Block(f, c + 1);
    InParent(a, c);
    if g == b && k == c {
      InParent(b, c);
      assert a in Block(f, c + 1) && a !in with;
      assert FreeBlock(with, b, c);
      assert !FreeBlock(with, Down(b, c + 1), c + 1);
    } else if Maximal(without, g, k) {
      HalfStepKeeps(free, f, c, a, g, k);
    } else if Maximal(with, g, k) {
      HalfStepOnly(free, f, c, a, b, g, k);
      assert false;
    }
  }

  lemma SplitBlock(f: nat, c: nat)
    ensures Block(f, c + 1) == Block(f, c) + Block(f + Pow2(c), c)
    ensures Block(f, c) !! Block(f + Pow2(c), c)
  {
    assert Pow2(c + 1) == 2 * Pow2(c);
    forall x: nat
      ensures x in Block(f, c + 1) <==> x in Block(f, c) || x in Block(f + Pow2(c), c)
    {
      assert InBlock(x, f, c + 1) <==> InBlock(x, f, c) || InBlock(x, f + Pow2(c), c);
    }
  }

  lemma HalfStepKeeps(free: set<nat>, f: nat, c: nat, a: nat, g: nat, k: nat)
    requires FreeBlock(free, f, c + 1) && AlignedAt(a, c) && Block(a, c) <= Block(f, c + 1)
    requires Maximal(free - Block(f, c + 1), g, k)
    ensures Maximal(free - Block(a, c), g, k)
  {
    var h := Down(g, k + 1);
    InParent(g, k);
    InParent(a, c);
    assert FreeBlock(free - Block(a, c), g, k);
    if FreeBlock(free - Block(a, c), h, k + 1) {
      var x :| x in Block(h, k + 1) && x in Block(f, c + 1);
      if k + 1 <= c + 1 {
        NestedBlocks(x, h, k + 1, f, c + 1);
      } else {
        NestedBlocks(x, f, c + 1, h, k + 1);
      }
      assert false;
    }
  }

  lemma HalfStepOnly(free: set<nat>, f: nat, c: nat, a: nat, b: nat, g: nat, k: nat)
    requires FreeBlock(free, f, c + 1) && AlignedAt(a, c) && AlignedAt(b, c)
    requires Block(f, c + 1) == Block(a, c) + Block(b, c) && Block(a, c) !! Block(b, c)
    requires Maximal(free - Block(a, c), g, k) && !Maximal(free - Block(f, c + 1), g, k)
    ensures g == b && k == c
  {
    var h := Down(g, k + 1);
    InParent(g, k);
    InParent(a, c);
    assert !FreeBlock(free - Block(f, c + 1), h, k + 1);
    var x :| x in Block(g, k) && x in Block(f, c + 1);
    assert x in Block(b, c);
    if k > c {
      NestedBlocks(x, f, c + 1, g, k);
      assert false;
    }
    NestedBlocks(x, g, k, b, c);
    if k < c {
      ParentInside(g, k, b, c);
    } else {
      DownTwice(g, k, k);
    }
  }
}
