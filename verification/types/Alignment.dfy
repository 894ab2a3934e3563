// The alignment macros of eng_mem.h, whose subtraction is on unsigned long and wraps at offset 0.
module Alignment {

  const ULONG: nat := 0x1_0000_0000_0000_0000
  const MAX_ALIGNMENT: nat := 8

  /** alignment_of: the lesser of the two. */
  function AlignmentOf(size: nat): (a: nat)
    ensures a <= size && a <= MAX_ALIGNMENT && (a == size || a == MAX_ALIGNMENT)
  {
    if size <= MAX_ALIGNMENT then size else MAX_ALIGNMENT
  }

  function AlignOffset(offset: nat, alignment: nat): nat {
    if alignment == 0 then offset
    else offset + (alignment - ((offset - 1) % ULONG % alignment + 1))
  }

  ghost predicate MultipleOf(n: nat, a: nat)
    requires a > 0
  {
    n % a == 0
  }

  ghost predicate LeastMultiple(r: nat, offset: nat, a: nat)
    requires a > 0
  {
    MultipleOf(r, a) && offset <= r && forall k: nat :: MultipleOf(k, a) && offset <= k ==> r <= k
  }

  /** The reference: the least multiple of a that is not below n. */
  function RoundUp(n: nat, a: nat): nat
    requires a > 0
  {
    (n + a - 1) / a * a
  }

  lemma DivMod(n: nat, a: nat) returns (q: nat, r: nat)
    requires a > 0
    ensures n == q * a + r && r < a && n % a == r && n / a == q
  {
    q, r := n / a, n % a;
  }

  lemma Monotone(a: nat, b: nat, d: nat)
    requires a <= b
    ensures a * d <= b * d
  {
    assert b * d == a * d + (b - a) * d;
  }

  lemma NotBelow(q: nat, r: nat, q': nat, r': nat, a: nat)
    requires q * a + r == q' * a + r' && r < a
    ensures q' <= q
  {
    assert (q + 1) * a == q * a + a;
    if q < q' {
      Monotone(q + 1, q', a);
    }
  }

  lemma ModOf(q: nat, r: nat, a: nat)
    requires r < a
    ensures (q * a + r) % a == r && (q * a + r) / a == q
  {
    var q', r' := DivMod(q * a + r, a);
    NotBelow(q, r, q', r', a);
    NotBelow(q', r', q, r, a);
  }

  lemma RoundUpLeast(n: nat, a: nat)
    requires a > 0
    ensures LeastMultiple(RoundUp(n, a), n, a) && RoundUp(n, a) < n + a
  {
    var q, r := DivMod(n + a - 1, a);
    ModOf(q, 0, a);
    forall k: nat | MultipleOf(k, a) && n <= k
      ensures RoundUp(n, a) <= k
    {
      var j, z := DivMod(k, a);
      assert (j + 1) * a == j * a + a;
      if j < q {
        Monotone(j + 1, q, a);
      } else {
        Monotone(q, j, a);
      }
    }
  }

  lemma LeastUnique(r: nat, r': nat, n: nat, a: nat)
    requires a > 0 && LeastMultiple(r, n, a) && LeastMultiple(r', n, a)
    ensures r == r'
  {
  }

  lemma AboveZero(offset: nat, a: nat)
    requires 0 < a && 0 < offset < ULONG
    ensures AlignOffset(offset, a) == RoundUp(offset, a)
  {
    var q, r := DivMod(offset - 1, a);
    assert (offset - 1) % ULONG == offset - 1;
    ModOf(q + 1, r, a);
    assert offset + a - 1 == (q + 1) * a + r;
  }

  /** At offset 0 the wrapped subtraction leaves 2^64 - 1. */
  lemma AtZero(a: nat)
    requires 0 < a
    ensures AlignOffset(0, a) == 0 <==> ULONG % a == 0
    ensures RoundUp(0, a) == 0
  {
    assert (0 - 1) % ULONG == ULONG - 1;
    var q, r := DivMod(ULONG, a);
    if r == 0 {
      ModOf(q - 1, a - 1, a);
      assert ULONG - 1 == (q - 1) * a + (a - 1);
    } else {
      ModOf(q, r - 1, a);
      assert ULONG - 1 == q * a + (r - 1);
    }
    assert (a - 1) / a == 0 by {
      ModOf(0, a - 1, a);
    }
  }

  /**
    * align_offset gives the least multiple not below the offset, except at 0 when the alignment
    * does not divide 2^64.
    */
  lemma AlignExactly(offset: nat, a: nat)
    requires 0 < a && offset < ULONG
    ensures LeastMultiple(AlignOffset(offset, a), offset, a) <==> (offset > 0 || ULONG % a == 0)
  {
    RoundUpLeast(offset, a);
    if offset > 0 {
      AboveZero(offset, a);
    } else {
      AtZero(a);
      if LeastMultiple(AlignOffset(0, a), 0, a) {
        LeastUnique(AlignOffset(0, a), RoundUp(0, a), 0, a);
      }
    }
  }

  /** For an alignment that divides 2^64 no bound on the offset is needed. */
  lemma AlignIsRoundUp(offset: nat, a: nat)
    requires 0 < a && ULONG % a == 0
    ensures AlignOffset(offset, a) == RoundUp(offset, a)
  {
    if offset == 0 {
      AtZero(a);
    } else {
      var q, r := DivMod(offset - 1, a);
      var big, low := DivMod(offset - 1, ULONG);
      var k, z := DivMod(ULONG, a);
      var j, s := DivMod(low, a);
      assert big * ULONG == big * k * a;
      assert offset - 1 == (big * k + j) * a + s;
      ModOf(big * k + j, s, a);
      assert s == r;
      ModOf(q + 1, r, a);
      assert offset + a - 1 == (q + 1) * a + r;
    }
  }

  /** Alignments are sizes of C types capped at 8: 1, 2, 4 and 8 divide 2^64, and 3 shows that others need not. */
  lemma ThreeIsWrong()
    ensures AlignOffset(0, 3) == 2
  {
    assert (0 - 1) % ULONG % 3 == 0;
  }
}
