// The singly linked tail queues of ey_queue.h: reversal in place, and moving the end of one queue to another.
module SingleTailQueue {

  class Elem {
    var next: Elem?

    constructor ()
      ensures next == null
    {
      next := null;
    }
  }

  class Head {
    var first: Elem?
    var last: Slot

    /** STAILQ_INIT. */
    constructor ()
      ensures IsQueue(this, [])
    {
      first := null;
      last := FirstOf(this);
    }
  }

  datatype Slot = FirstOf(head: Head) | NextOf(elem: Elem)

  ghost predicate Distinct(l: seq<Elem>) {
    forall i, j :: 0 <= i < j < |l| ==> l[i] != l[j]
  }

  /** The elements of l from i on are linked in this order, the last one to nothing. */
  ghost predicate Linked(l: seq<Elem>)
    reads l
  {
    forall i :: 0 <= i < |l| ==> LinkOk(l, i)
  }

  ghost predicate LinkOk(l: seq<Elem>, i: nat)
    requires i < |l|
    reads l[i]
  {
    l[i].next == if i + 1 < |l| then l[i + 1] else null
  }

  function SlotOf(h: Head, l: seq<Elem>, i: nat): Slot
    requires i <= |l|
  {
    if i == 0 then FirstOf(h) else NextOf(l[i - 1])
  }

  ghost predicate IsQueue(h: Head, l: seq<Elem>)
    reads h, l
  {
    && Distinct(l) && Linked(l)
    && h.first == (if l == [] then null else l[0])
    && h.last == SlotOf(h, l, |l|)
  }

  /** `*slot`. */
  function Get(slot: Slot): Elem?
    reads if slot.FirstOf? then {slot.head as object} else {slot.elem as object}
  {
    match slot
    case FirstOf(h) => h.first
    case NextOf(e) => e.next
  }

  /** `*slot = e`. */
  method Put(slot: Slot, e: Elem?)
    modifies if slot.FirstOf? then {slot.head as object} else {slot.elem as object}
    ensures slot.FirstOf? ==> slot.head.first == e && slot.head.last == old(slot.head.last)
    ensures slot.NextOf? ==> slot.elem.next == e
  {
    match slot
    case FirstOf(h) => h.first := e;
    case NextOf(f) => f.next := e;
  }

  /** STAILQ_INSERT_HEAD. */
  method InsertHead(h: Head, e: Elem, ghost l: seq<Elem>)
    requires IsQueue(h, l) && e !in l
    modifies h, e
    ensures IsQueue(h, [e] + l)
  {
    ghost var r := [e] + l;
    e.next := h.first;
    if e.next == null {
      h.last := NextOf(e);
    }
    h.first := e;
    forall i | 0 <= i < |r|
      ensures LinkOk(r, i)
    {
      if i > 0 {
        assert l[i - 1] in l;
        assert old(LinkOk(l, i - 1));
      }
    }
  }

  /** STAILQ_INSERT_TAIL. */
  method InsertTail(h: Head, e: Elem, ghost l: seq<Elem>)
    requires IsQueue(h, l) && e !in l
    modifies h, e, if l == [] then {} else {l[|l| - 1]}
    ensures IsQueue(h, l + [e])
  {
    ghost var r := l + [e];
    e.next := null;
    Put(h.last, e);
    h.last := NextOf(e);
    forall i | 0 <= i < |r|
      ensures LinkOk(r, i)
    {
      if i < |l| {
        assert l[i] in l;
        assert old(LinkOk(l, i));
      }
    }
  }

  function Reversed(l: seq<Elem>): seq<Elem> {
    if l == [] then [] else Reversed(l[1..]) + [l[0]]
  }

  /** Element i of the reversed sequence is element i from the end. */
  lemma {:induction false} ReversedAt(l: seq<Elem>, i: nat)
    requires i < |l|
    ensures |Reversed(l)| == |l| && Reversed(l)[i] == l[|l| - 1 - i]
  {
    if |l| > 1 {
      ReversedAt(l[1..], if i < |l| - 1 then i else 0);
    }
  }

  /** STAILQ_REVERSE: the queue is emptied and each element in turn put at its head. */
  method Reverse(h: Head, ghost l: seq<Elem>)
    requires IsQueue(h, l)
    modifies h, l
    ensures IsQueue(h, Reversed(l))
  {
    var e := h.first;
    h.first := null;
    h.last := FirstOf(h);
    ghost var done: seq<Elem> := [];
    ghost var rest := l;
    while e != null
      invariant IsQueue(h, done)
      invariant Distinct(rest) && Linked(rest) && e == if rest == [] then null else rest[0]
      invariant (forall x :: x in rest ==> x in l && x !in done) && forall x :: x in done ==> x in l
      invariant Reversed(l) == Reversed(rest) + done
      decreases |rest|
    {
      assert LinkOk(rest, 0);
      var following := e.next;
      TailLinked(rest);
      assert rest[0] in rest;
      ghost var tail := rest[1..];
      assert e !in tail && rest == [e] + tail;
      InsertHead(h, e, done);
      forall i | 0 <= i < |tail|
        ensures LinkOk(tail, i)
      {
        assert tail[i] in tail;
      }
      done, rest := [e] + done, tail;
      e := following;
    }
    assert Reversed(rest) + done == done;
  }

  lemma {:induction false} TailLinked(l: seq<Elem>)
    requires Distinct(l) && Linked(l) && l != []
    ensures Distinct(l[1..]) && Linked(l[1..]) && l[0] !in l[1..]
  {
    forall i | 0 <= i < |l[1..]|
      ensures LinkOk(l[1..], i)
    {
      assert LinkOk(l, i + 1);
    }
  }

  /** STAILQ_SPLICE: the elements from `elem` on move to the end of the second queue. */
  method Splice(h1: Head, elem: Elem?, h2: Head, ghost l1: seq<Elem>, ghost k: nat, ghost l2: seq<Elem>)
    requires h1 != h2 && IsQueue(h1, l1) && IsQueue(h2, l2)
    requires forall x :: x in l1 ==> x !in l2
    requires elem == null || (k < |l1| && l1[k] == elem)
    modifies h1, h2, l1, l2
    ensures elem == null ==> IsQueue(h1, l1) && IsQueue(h2, l2)
    ensures elem != null ==> IsQueue(h1, l1[..k]) && IsQueue(h2, l2 + l1[k..])
  {
    if elem != null {
      ghost var r := l2 + l1[k..];
      Put(h2.last, elem);
      h2.last := h1.last;
      h1.last := FirstOf(h1);
      forall i | 0 <= i < |l1|
        ensures LinkOk(l1, i)
      {
        assert l1[i] in l1;
        assert l2 != [] ==> l2[|l2| - 1] in l2;
        assert old(LinkOk(l1, i));
      }
      forall i | 0 <= i < |r|
        ensures LinkOk(r, i)
      {
        if i < |l2| {
          assert old(LinkOk(l2, i));
        } else {
          assert LinkOk(l1, i - |l2| + k);
        }
      }
      ghost var i := 0;
      while Get(h1.last) != elem
        invariant 0 <= i <= k && h1.last == SlotOf(h1, l1, i) && h1.first == l1[0]
        invariant Linked(l1) && Linked(r)
        modifies h1
        decreases k - i
      {
        if i > 0 {
          assert LinkOk(l1, i - 1);
        }
        h1.last := NextOf(Get(h1.last));
        i := i + 1;
      }
      if i > 0 {
        assert LinkOk(l1, i - 1);
      }
      label cut:
      Put(h1.last, null);
      DistinctParts(l1, k, l2);
      forall j | 0 <= j < k
        ensures LinkOk(l1[..k], j)
      {
        assert old@cut(LinkOk(l1, j));
      }
      forall j | 0 <= j < |r|
        ensures LinkOk(r, j)
      {
        assert r[j] in r && (k > 0 ==> l1[k - 1] !in r);
        assert old@cut(LinkOk(r, j));
      }
    }
  }

  lemma {:induction false} DistinctParts(l1: seq<Elem>, k: nat, l2: seq<Elem>)
    requires Distinct(l1) && Distinct(l2) && k < |l1| && forall x :: x in l1 ==> x !in l2
    ensures Distinct(l1[..k]) && Distinct(l2 + l1[k..])
    ensures k > 0 ==> l1[k - 1] !in l2 + l1[k..]
  {
    var r := l2 + l1[k..];
    forall i, j | 0 <= i < j < |r|
      ensures r[i] != r[j]
    {
      assert r[i] == if i < |l2| then l2[i] else l1[i - |l2| + k];
      assert r[j] == if j < |l2| then l2[j] else l1[j - |l2| + k];
      if i < |l2| <= j {
        assert l2[i] in l2 && l1[j - |l2| + k] in l1;
      }
    }
    if k > 0 {
      assert l1[k - 1] in l1;
    }
  }
}
