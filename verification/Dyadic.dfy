/** Aligned power-of-two blocks. Everything is by halving, so alignment, containment and
    buddies need no arithmetic beyond division by two. */
module Dyadic {
  function Pow2(n: nat): (p: nat)
    ensures p > 0
  {
    if n == 0 then 1 else 2 * Pow2(n - 1)
  }

  /** The start of the aligned block of order `o` that holds `x`. */
  function Down(x: nat, o: nat): nat {
    if o == 0 then x else 2 * Down(x / 2, o - 1)
  }

  predicate AlignedAt(f: nat, o: nat) {
    Down(f, o) == f
  }

  predicate InBlock(x: nat, f: nat, o: nat) {
    f <= x < f + Pow2(o)
  }

  /** `f ^ (1 << o)`: bit `o` of `f` is flipped, the others stay. */
  function Buddy(f: nat, o: nat): nat {
    if o > 0 then 2 * Buddy(f / 2, o - 1) + f % 2 else if f % 2 == 0 then f + 1 else f - 1
  }

  lemma {:induction false} DownBounds(x: nat, o: nat)
    ensures Down(x, o) <= x < Down(x, o) + Pow2(o)
  {
    if o > 0 {
      DownBounds(x / 2, o - 1);
    }
  }

  /** Rounding down twice is rounding down by the larger order. */
  lemma {:induction false} DownTwice(x: nat, o: nat, p: nat)
    ensures Down(Down(x, o), p) == Down(x, if o <= p then p else o)
  {
    if o > 0 && p > 0 {
      DownTwice(x / 2, o - 1, p - 1);
      assert Down(x, o) / 2 == Down(x / 2, o - 1);
    }
  }

  /** An aligned block holds exactly what rounds down to its start. */
  lemma {:induction false} InBlockIsDown(x: nat, f: nat, o: nat)
    requires AlignedAt(f, o)
    ensures InBlock(x, f, o) <==> Down(x, o) == f
  {
    DownBounds(x, o);
    if o > 0 {
      assert AlignedAt(f / 2, o - 1);
      InBlockIsDown(x / 2, f / 2, o - 1);
    }
  }

  lemma AlignedDown(x: nat, o: nat)
    ensures AlignedAt(Down(x, o), o)
  {
    DownTwice(x, o, o);
  }

  lemma AlignedLower(f: nat, o: nat, p: nat)
    requires AlignedAt(f, p) && o <= p
    ensures AlignedAt(f, o)
  {
    DownTwice(f, p, o);
  }

  /** Blocks that meet are nested. */
  lemma Nested(x: nat, a: nat, i: nat, b: nat, j: nat)
    requires AlignedAt(a, i) && AlignedAt(b, j) && i <= j && InBlock(x, a, i) && InBlock(x, b, j)
    ensures Down(a, j) == b
    ensures forall y: nat :: InBlock(y, a, i) ==> InBlock(y, b, j)
  {
    InBlockIsDown(x, a, i);
    InBlockIsDown(x, b, j);
    DownTwice(x, i, j);
    forall y: nat | InBlock(y, a, i)
      ensures InBlock(y, b, j)
    {
      InBlockIsDown(y, a, i);
      InBlockIsDown(y, b, j);
      DownTwice(y, i, j);
    }
  }

  /** The two halves of an aligned block. */
  lemma {:induction false} Halves(f: nat, o: nat)
    requires AlignedAt(f, o + 1)
    ensures AlignedAt(f, o) && AlignedAt(f + Pow2(o), o) && !AlignedAt(f + Pow2(o), o + 1)
    ensures Down(f + Pow2(o), o + 1) == f
  {
    AlignedLower(f, o, o + 1);
    InBlockIsDown(f + Pow2(o), f, o + 1);
    UpperAligned(f, o);
  }

  lemma {:induction false} UpperAligned(f: nat, o: nat)
    requires AlignedAt(f, o)
    ensures AlignedAt(f + Pow2(o), o)
  {
    if o > 0 {
      UpperAligned(f / 2, o - 1);
      assert (f + Pow2(o)) / 2 == f / 2 + Pow2(o - 1);
    }
  }

  lemma {:induction false} FlippedBit(f: nat, o: nat)
    requires AlignedAt(f, o)
    ensures Buddy(f, o) == 2 * Down(f, o + 1) + Pow2(o) - f
  {
    if o > 0 {
      FlippedBit(f / 2, o - 1);
    }
  }

  /** `f ^ (1 << o)` is the other half of the enclosing block, and the lower of the two is
      where that block starts. */
  lemma BuddyIsSibling(f: nat, o: nat)
    requires AlignedAt(f, o)
    ensures var h := Down(f, o + 1);
      && (f == h || f == h + Pow2(o)) && Buddy(f, o) == 2 * h + Pow2(o) - f
      && AlignedAt(h, o + 1)
  {
    FlippedBit(f, o);
    var h := Down(f, o + 1);
    AlignedDown(f, o + 1);
    DownBounds(f, o + 1);
    Halves(h, o);
    if f < h + Pow2(o) {
      InBlockIsDown(f, h, o);
    } else {
      InBlockIsDown(f, h + Pow2(o), o);
    }
  }

  /** No block of order `o <= m` straddles a multiple of `2^m`. */
  lemma {:induction false} DownKeepsSide(x: nat, o: nat, m: nat)
    requires o <= m
    ensures x < Pow2(m) <==> Down(x, o) < Pow2(m)
  {
    if o > 0 {
      DownKeepsSide(x / 2, o - 1, m - 1);
    }
  }

  /** The least multiple of `2^o` from `x` up. */
  function AlignUp(x: nat, o: nat): nat {
    Down(x + Pow2(o) - 1, o)
  }

  lemma NextAligned(f: nat, g: nat, o: nat)
    requires AlignedAt(f, o) && AlignedAt(g, o) && f < g
    ensures f + Pow2(o) <= g
  {
    InBlockIsDown(g, f, o);
  }

  lemma AlignUpIs(x: nat, o: nat, g: nat)
    ensures AlignedAt(AlignUp(x, o), o) && AlignUp(x, o) >= x
    ensures AlignedAt(g, o) && g >= x ==> g >= AlignUp(x, o)
  {
    AlignedDown(x + Pow2(o) - 1, o);
    DownBounds(x + Pow2(o) - 1, o);
    if AlignedAt(g, o) && g < AlignUp(x, o) {
      NextAligned(g, AlignUp(x, o), o);
    }
  }

  lemma {:induction false} AlignedSum(a: nat, b: nat, o: nat)
    requires AlignedAt(a, o) && AlignedAt(b, o)
    ensures AlignedAt(a + b, o)
  {
    if o > 0 {
      AlignedSum(a / 2, b / 2, o - 1);
      assert (a + b) / 2 == a / 2 + b / 2;
    }
  }

  lemma {:induction false} PowAligned(n: nat, o: nat)
    requires o <= n
    ensures AlignedAt(Pow2(n), o)
  {
    if o > 0 {
      PowAligned(n - 1, o - 1);
    }
  }

  lemma {:induction false} Pow2Mono(a: nat, b: nat)
    requires a <= b
    ensures Pow2(a) <= Pow2(b)
  {
    if a < b {
      Pow2Mono(a, b - 1);
    }
  }
}
