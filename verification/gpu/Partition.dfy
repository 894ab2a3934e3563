// How KernelLaunch.cpp sizes its work and how the kernels' strided loops share it out.
module Partition {

  /** WS, the work items of a group. */
  const WS: nat := 64
  /** The bytes of a cl_uint and of the uint4 a work item reads at a time. */
  const WORD: nat := 4
  const ITEM: nat := 16

  /** Integer division of C, towards zero. */
  function Quotient(a: int, b: int): int
    requires b > 0
  {
    if a >= 0 then a / b else -(-a / b)
  }

  function Remainder(a: int, b: int): int
    requires b > 0
  {
    a - Quotient(a, b) * b
  }

  /** The sizes a launch works with. */
  ghost predicate GoodSizes(nBytes: int, nItems: int, nThreads: int) {
    && 0 < nThreads <= nItems && nBytes == nItems * ITEM
    && nThreads % WS == 0 && nItems % nThreads == 0 && nItems % WS == 0
  }

  lemma {:induction false} MulMono(a: int, b: int, c: int)
    requires a <= b && 0 <= c
    ensures a * c <= b * c
  {
    assert (b - a) * c >= 0;
    assert b * c == a * c + (b - a) * c;
  }

  lemma {:induction false} ModUnique(q: int, r: int, d: int)
    requires 0 <= r < d
    ensures (q * d + r) % d == r
  {
    var n := q * d + r;
    var q', r' := n / d, n % d;
    assert n == q' * d + r' && 0 <= r' < d;
    if q < q' {
      MulMono(q + 1, q', d);
    } else if q' < q {
      MulMono(q' + 1, q, d);
    }
  }

  /**
    * computeGlobals: the buffer becomes a positive number of whole groups' items, and the threads the least
    * multiple of the group size, from the guess on, that divides the items; the loop ends at nItems at the latest.
    */
  method ComputeGlobals(size: int, computeUnits: int, nWF: int)
    returns (nBytes: int, nItems: int, nThreads: int, nBytesResult: int)
    requires computeUnits > 0 && nWF > 0
    ensures GoodSizes(nBytes, nItems, nThreads)
    ensures nBytes <= size || nBytes == WS * ITEM
    ensures size >= WS * ITEM ==> size - WS * ITEM < nBytes <= size
    ensures nBytesResult == nThreads / WS * WORD
    ensures nThreads >= computeUnits * nWF * WS || nThreads == nItems
    ensures forall n :: computeUnits * nWF * WS <= n < nThreads && n % WS == 0 ==> nItems % n != 0
  {
    var minBytes := WS * WORD * 4;
    nBytes := Quotient(size, minBytes) * minBytes;
    if nBytes < minBytes {
      nBytes := minBytes;
    }
    nItems := Quotient(nBytes, ITEM);
    ghost var groups := nBytes / minBytes;
    assert nItems == groups * WS && groups >= 1;
    ModUnique(groups, 0, WS);
    var maxThreads := Quotient(nBytes, ITEM);
    nThreads := computeUnits * nWF * WS;
    ghost var guess := nThreads;
    assert computeUnits * nWF >= 1 by {
      MulMono(1, nWF, computeUnits);
    }
    ghost var k := computeUnits * nWF;
    ModUnique(k, 0, WS);
    ModUnique(1, 0, nItems);
    if nThreads > maxThreads {
      nThreads := maxThreads;
    } else {
      while Remainder(nItems, nThreads) != 0
        invariant guess <= nThreads <= nItems && nThreads == k * WS && k >= 1
        invariant forall n :: guess <= n < nThreads && n % WS == 0 ==> nItems % n != 0
        decreases nItems - nThreads
      {
        RemainderIs(nItems, nThreads);
        NextMultiple(k, groups);
        nThreads := nThreads + WS;
        k := k + 1;
      }
      RemainderIs(nItems, nThreads);
      ModUnique(k, 0, WS);
    }
    nBytesResult := Quotient(nThreads, WS) * WORD;
  }

  lemma {:induction false} RemainderIs(a: int, b: int)
    requires a >= 0 && b > 0
    ensures Remainder(a, b) == a % b
  {
  }

  /** A smaller multiple of the group size is smaller by a whole group. */
  lemma {:induction false} NextMultiple(k: int, groups: int)
    ensures k * WS < groups * WS ==> (k + 1) * WS <= groups * WS
    ensures forall n :: k * WS < n < (k + 1) * WS ==> n % WS != 0
  {
  }
}
