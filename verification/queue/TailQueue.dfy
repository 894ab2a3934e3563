// The tail queues of ey_queue.h: elements doubly linked by pointers, the back pointer being the address of
// the pointer that points at the element. Each operation is shown to do to the queue what its name says
// to a sequence, with all pointers consistent.
module TailQueue {

  class Elem {
    var next: Elem?
    var prev: Slot

    constructor ()
      ensures next == null && prev == Nothing
    {
      next, prev := null, Nothing;
    }
  }

  class Head {
    var first: Elem?
    var last: Slot

    /** TAILQ_INIT. */
    constructor ()
      ensures IsQueue(this, [])
    {
      first := null;
      last := FirstOf(this);
    }
  }

  /** The address of a pointer to an element: a queue's first, or an element's next. */
  datatype Slot = FirstOf(head: Head) | NextOf(elem: Elem) | Nothing

  ghost predicate Distinct(l: seq<Elem>) {
    forall i, j :: 0 <= i < j < |l| ==> l[i] != l[j]
  }

  /** What element i of the sequence points at. */
  function NextIn(l: seq<Elem>, i: nat): Elem? {
    if i + 1 < |l| then l[i + 1] else null
  }

  /** What points at element i of the sequence. */
  function SlotOf(h: Head, l: seq<Elem>, i: nat): Slot
    requires i <= |l|
  {
    if i == 0 then FirstOf(h) else NextOf(l[i - 1])
  }

  ghost predicate LinkOk(h: Head, l: seq<Elem>, i: nat)
    requires i < |l|
    reads l[i]
  {
    l[i].next == NextIn(l, i) && l[i].prev == SlotOf(h, l, i)
  }

  /** The queue is the sequence l: forward pointers, back pointers, first and last. */
  ghost predicate IsQueue(h: Head, l: seq<Elem>)
    reads h, l
  {
    && Distinct(l)
    && h.first == (if l == [] then null else l[0])
    && h.last == SlotOf(h, l, |l|)
    && (forall i :: 0 <= i < |l| ==> LinkOk(h, l, i))
  }

  /** A back pointer points at what points at the element. */
  lemma {:induction false} BackPointers(h: Head, l: seq<Elem>, i: nat)
    requires IsQueue(h, l) && i < |l|
    ensures match l[i].prev
            case FirstOf(g) => g == h && g.first == l[i]
            case NextOf(e) => i > 0 && e == l[i - 1] && e.next == l[i]
            case Nothing => false
  {
    assert LinkOk(h, l, i);
    if i > 0 {
      assert LinkOk(h, l, i - 1);
    }
  }

  /** A queue is one sequence only. */
  lemma {:induction false} OneSequence(h: Head, l: seq<Elem>, r: seq<Elem>)
    requires IsQueue(h, l) && IsQueue(h, r)
    ensures l == r
  {
    SamePrefix(h, l, r, |l|);
    SamePrefix(h, r, l, |r|);
    assert l[..|l|] == l && r[..|r|] == r;
  }

  lemma {:induction false} SamePrefix(h: Head, l: seq<Elem>, r: seq<Elem>, n: nat)
    requires IsQueue(h, l) && IsQueue(h, r) && n <= |l|
    ensures n <= |r| && l[..n] == r[..n]
  {
    if n > 0 {
      SamePrefix(h, l, r, n - 1);
      if n > 1 {
        assert LinkOk(h, l, n - 2) && LinkOk(h, r, n - 2);
        assert l[..n - 1][n - 2] == r[..n - 1][n - 2];
      }
      assert l[..n] == l[..n - 1] + [l[n - 1]] && r[..n] == r[..n - 1] + [r[n - 1]];
    }
  }

  // ----- sequences without repeats -----

  lemma {:induction false} DistinctInsert(l: seq<Elem>, k: nat, e: Elem)
    requires Distinct(l) && e !in l && k <= |l|
    ensures Distinct(l[..k] + [e] + l[k..])
  {
    var r := l[..k] + [e] + l[k..];
    forall i, j | 0 <= i < j < |r|
      ensures r[i] != r[j]
    {
      assert i < k ==> r[i] == l[i];
      assert i > k ==> r[i] == l[i - 1];
      assert j < k ==> r[j] == l[j];
      assert j > k ==> r[j] == l[j - 1];
    }
  }

  lemma {:induction false} DistinctRemove(l: seq<Elem>, k: nat)
    requires Distinct(l) && k < |l|
    ensures Distinct(l[..k] + l[k + 1..])
  {
    var r := l[..k] + l[k + 1..];
    forall i, j | 0 <= i < j < |r|
      ensures r[i] != r[j]
    {
      assert r[i] == l[if i < k then i else i + 1] && r[j] == l[if j < k then j else j + 1];
    }
  }

  lemma {:induction false} DistinctConcat(l1: seq<Elem>, l2: seq<Elem>)
    requires Distinct(l1) && Distinct(l2) && (forall e :: e in l1 ==> e !in l2)
    ensures Distinct(l1 + l2)
  {
    var r := l1 + l2;
    forall i, j | 0 <= i < j < |r|
      ensures r[i] != r[j]
    {
      assert r[i] == if i < |l1| then l1[i] else l2[i - |l1|];
      assert r[j] == if j < |l1| then l1[j] else l2[j - |l1|];
      if i < |l1| <= j {
        assert l1[i] in l1 && l2[j - |l1|] in l2;
      }
    }
  }

  // ----- the operations -----

  /** `*slot = e`. */
  method Put(slot: Slot, e: Elem?)
    requires slot != Nothing
    modifies if slot.FirstOf? then {slot.head as object} else if slot.NextOf? then {slot.elem as object} else {}
    ensures slot.FirstOf? ==> slot.head.first == e && slot.head.last == old(slot.head.last)
    ensures slot.NextOf? ==> slot.elem.next == e && slot.elem.prev == old(slot.elem.prev)
  {
    match slot
    case FirstOf(h) => h.first := e;
    case NextOf(f) => f.next := e;
  }

  /** TAILQ_INSERT_HEAD. */
  method InsertHead(h: Head, e: Elem, ghost l: seq<Elem>)
    requires IsQueue(h, l) && e !in l
    modifies h, e, if l == [] then {} else {l[0]}
    ensures IsQueue(h, [e] + l)
  {
    ghost var r := [e] + l;
    e.next := h.first;
    if e.next != null {
      e.next.prev := NextOf(e);
    } else {
      h.last := NextOf(e);
    }
    h.first := e;
    e.prev := FirstOf(h);
    assert l[..0] + [e] + l[0..] == r;
    DistinctInsert(l, 0, e);
    forall i | 0 <= i < |r|
      ensures LinkOk(h, r, i)
    {
      if i > 0 {
        assert old(LinkOk(h, l, i - 1));
      }
    }
  }

  /** TAILQ_INSERT_TAIL. */
  method InsertTail(h: Head, e: Elem, ghost l: seq<Elem>)
    requires IsQueue(h, l) && e !in l
    modifies h, e, if l == [] then {} else {l[|l| - 1]}
    ensures IsQueue(h, l + [e])
  {
    ghost var r := l + [e];
    e.next := null;
    e.prev := h.last;
    Put(h.last, e);
    h.last := NextOf(e);
    assert l[..|l|] + [e] + l[|l|..] == r;
    DistinctInsert(l, |l|, e);
    forall i | 0 <= i < |r|
      ensures LinkOk(h, r, i)
    {
      if i < |l| {
        assert old(LinkOk(h, l, i));
      }
    }
  }

  /** TAILQ_INSERT_AFTER. */
  method InsertAfter(h: Head, at: Elem, e: Elem, ghost l: seq<Elem>, ghost k: nat)
    requires IsQueue(h, l) && e !in l && k < |l| && l[k] == at
    modifies h, e, at, if k + 1 < |l| then {l[k + 1]} else {}
    ensures IsQueue(h, l[..k + 1] + [e] + l[k + 1..])
  {
    ghost var r := l[..k + 1] + [e] + l[k + 1..];
    assert LinkOk(h, l, k);
    e.next := at.next;
    if e.next != null {
      e.next.prev := NextOf(e);
    } else {
      h.last := NextOf(e);
    }
    at.next := e;
    e.prev := NextOf(at);
    DistinctInsert(l, k + 1, e);
    forall i | 0 <= i < |r|
      ensures LinkOk(h, r, i)
    {
      if i <= k {
        assert old(LinkOk(h, l, i));
      } else if i > k + 1 {
        assert old(LinkOk(h, l, i - 1));
      }
    }
  }

  /** TAILQ_INSERT_BEFORE, which has no use for the head. */
  method InsertBefore(ghost h: Head, at: Elem, e: Elem, ghost l: seq<Elem>, ghost k: nat)
    requires IsQueue(h, l) && e !in l && k < |l| && l[k] == at
    modifies h, e, at, if k == 0 then {} else {l[k - 1]}
    ensures IsQueue(h, l[..k] + [e] + l[k..])
    ensures h.last == old(h.last)
  {
    ghost var r := l[..k] + [e] + l[k..];
    assert LinkOk(h, l, k);
    e.prev := at.prev;
    e.next := at;
    Put(at.prev, e);
    at.prev := NextOf(e);
    DistinctInsert(l, k, e);
    forall i | 0 <= i < |r|
      ensures LinkOk(h, r, i)
    {
      if i < k {
        assert old(LinkOk(h, l, i));
      } else if i > k {
        assert old(LinkOk(h, l, i - 1));
      }
    }
  }

  /** TAILQ_REMOVE. */
  method Remove(h: Head, e: Elem, ghost l: seq<Elem>, ghost k: nat)
    requires IsQueue(h, l) && k < |l| && l[k] == e
    modifies h, if k == 0 then {} else {l[k - 1]}, if k + 1 < |l| then {l[k + 1]} else {}
    ensures IsQueue(h, l[..k] + l[k + 1..])
    ensures e.next == old(e.next)
  {
    ghost var r := l[..k] + l[k + 1..];
    assert LinkOk(h, l, k);
    if e.next != null {
      e.next.prev := e.prev;
    } else {
      h.last := e.prev;
    }
    Put(e.prev, e.next);
    DistinctRemove(l, k);
    forall i | 0 <= i < |r|
      ensures LinkOk(h, r, i)
    {
      assert old(LinkOk(h, l, if i < k then i else i + 1));
    }
  }

  /** TAILQ_CONCAT: the second queue's elements move to the end of the first, and the second is empty. */
  method Concat(h1: Head, h2: Head, ghost l1: seq<Elem>, ghost l2: seq<Elem>)
    requires h1 != h2 && IsQueue(h1, l1) && IsQueue(h2, l2)
    requires forall e :: e in l1 ==> e !in l2
    modifies h1, h2, if l1 == [] then {} else {l1[|l1| - 1]}, if l2 == [] then {} else {l2[0]}
    ensures IsQueue(h1, l1 + l2) && IsQueue(h2, [])
  {
    ghost var r := l1 + l2;
    if l1 != [] {
      assert l1[|l1| - 1] in l1;
    }
    if h2.first != null {
      Put(h1.last, h2.first);
      h2.first.prev := h1.last;
      h1.last := h2.last;
      h2.first := null;
      h2.last := FirstOf(h2);
    } else {
      assert r == l1;
    }
    DistinctConcat(l1, l2);
    forall i | 0 <= i < |r|
      ensures LinkOk(h1, r, i)
    {
      if i < |l1| {
        assert l1[i] in l1;
        assert l2 != [] ==> l2[0] in l2;
        assert old(LinkOk(h1, l1, i));
      } else {
        assert old(LinkOk(h2, l2, i - |l1|));
      }
    }
  }

  function Kept(l: seq<Elem>, p: Elem -> bool): seq<Elem> {
    if l == [] then [] else (if p(l[0]) then [] else [l[0]]) + Kept(l[1..], p)
  }

  /** One turn of the loop: the next element is fetched before the element may be removed. */
  method Visit(h: Head, p: Elem -> bool, e: Elem, ghost kept: seq<Elem>, ghost rest: seq<Elem>)
    returns (following: Elem?, ghost kept': seq<Elem>)
    requires IsQueue(h, kept + [e] + rest)
    modifies h, kept, rest
    ensures kept' == if p(e) then kept else kept + [e]
    ensures IsQueue(h, kept' + rest)
    ensures following == if rest == [] then null else rest[0]
  {
    ghost var l := kept + [e] + rest;
    assert l[|kept|] == e;
    assert LinkOk(h, l, |kept|);
    following := e.next;
    kept' := kept + [e];
    if p(e) {
      assert l[..|kept|] == kept && l[|kept| + 1..] == rest;
      if kept != [] {
        assert l[|kept| - 1] == kept[|kept| - 1];
      }
      Remove(h, e, l, |kept|);
      kept' := kept;
    }
  }

  /** TAILQ_FOREACH_SAFE with TAILQ_REMOVE in the body: every element is visited, the marked ones are gone. */
  method RemoveMarked(h: Head, p: Elem -> bool, ghost l: seq<Elem>)
    requires IsQueue(h, l)
    modifies h, l
    ensures IsQueue(h, Kept(l, p))
  {
    hide IsQueue, Kept;
    FirstIs(h, l);
    var e := h.first;
    ghost var k := 0;
    ghost var kept: seq<Elem> := [];
    assert kept + l[k..] == l;
    while e != null
      invariant 0 <= k <= |l|
      invariant IsQueue(h, kept + l[k..]) && Kept(l, p) == kept + Kept(l[k..], p)
      invariant e == if k < |l| then l[k] else null
      invariant forall i :: 0 <= i < |kept| ==> kept[i] in l
      decreases |l| - k
    {
      ghost var rest := l[k + 1..];
      NextUp(kept, l, k);
      KeptNext(l, p, kept, k);
      e, kept := Visit(h, p, e, kept, rest);
      k := k + 1;
    }
    KeptNothing(p);
    AllDone(kept, l);
  }

  lemma {:induction false} FirstIs(h: Head, l: seq<Elem>)
    requires IsQueue(h, l)
    ensures h.first == if l == [] then null else l[0]
  {
  }

  lemma {:induction false} NextUp(kept: seq<Elem>, l: seq<Elem>, k: nat)
    requires k < |l|
    ensures kept + l[k..] == kept + [l[k]] + l[k + 1..]
  {
  }

  lemma {:induction false} AllDone(kept: seq<Elem>, l: seq<Elem>)
    ensures l[|l|..] == [] && kept + l[|l|..] == kept
  {
  }

  lemma {:induction false} KeptNothing(p: Elem -> bool)
    ensures Kept([], p) == []
  {
  }

  lemma {:induction false} KeptNext(l: seq<Elem>, p: Elem -> bool, kept: seq<Elem>, k: nat)
    requires k < |l|
    ensures kept + Kept(l[k..], p) == (if p(l[k]) then kept else kept + [l[k]]) + Kept(l[k + 1..], p)
  {
    assert l[k..][1..] == l[k + 1..];
  }
}
