// What a slab keeps between calls.
module SlabInvariant {
  import opened Wrappers
  import opened Slab

  // ----- the layout of a page -----

  /** ey_zinit's size test, on numbers that do not wrap. */
  predicate Geometry(realSize: nat, perPage: nat) {
    && realSize > 0 && realSize % MEM_ROUNDING == 0
    && Stride(realSize) * MIN_PAGE_ITEMS + PAGE_HEAD <= PAGE_SIZE
    && perPage == (PAGE_SIZE - PAGE_HEAD) / Stride(realSize)
  }

  lemma OffsetsApart(realSize: nat, i: nat, j: nat)
    requires i < j
    ensures Offset(realSize, i) + Stride(realSize) <= Offset(realSize, j)
  {
    var k := j - i - 1;
    assert j * Stride(realSize) == i * Stride(realSize) + Stride(realSize) + k * Stride(realSize);
    assert k * Stride(realSize) >= 0;
  }

  lemma OffsetInside(realSize: nat, perPage: nat, i: nat)
    requires Geometry(realSize, perPage) && i < perPage
    ensures PAGE_HEAD <= Offset(realSize, i) && Offset(realSize, i) + Stride(realSize) <= PAGE_SIZE
  {
    OffsetsApart(realSize, i, perPage);
    assert perPage * Stride(realSize) <= PAGE_SIZE - PAGE_HEAD;
  }

  lemma EnoughItems(realSize: nat, perPage: nat)
    requires Geometry(realSize, perPage)
    ensures MIN_PAGE_ITEMS <= perPage <= PAGE_SIZE
  {
    var d := Stride(realSize);
    assert PAGE_SIZE - PAGE_HEAD < (perPage + 1) * d;
    if perPage < MIN_PAGE_ITEMS {
      Monotone(perPage + 1, MIN_PAGE_ITEMS, d);
    }
  }

  lemma Monotone(a: nat, b: nat, d: nat)
    requires a <= b
    ensures a * d <= b * d
  {
    assert b * d == a * d + (b - a) * d;
  }

  lemma OffsetsDiffer(realSize: nat, i: nat, j: nat)
    requires i != j
    ensures Offset(realSize, i) != Offset(realSize, j)
  {
    hide Offset;
    if i < j {
      OffsetsApart(realSize, i, j);
    } else {
      OffsetsApart(realSize, j, i);
    }
  }

  /** Is o the offset of some item? */
  predicate Slotted(realSize: nat, perPage: nat, o: nat) {
    exists i :: 0 <= i < perPage && Offset(realSize, i) == o
  }

  // ----- the free list of a page -----

  /** The first n items reached from `first`; None when a link leaves the items. */
  function Chain(items: map<Addr, Item>, first: Addr, n: nat): Option<seq<Addr>>
    decreases n
  {
    if n == 0 then Some([])
    else if first !in items then None
    else
      match Chain(items, items[first].link, n - 1)
      case None => None
      case Some(rest) => Some([first] + rest)
  }

  lemma {:induction false} ChainLength(items: map<Addr, Item>, first: Addr, n: nat)
    requires Chain(items, first, n).Some?
    ensures |Chain(items, first, n).value| == n
    ensures forall h :: h in Chain(items, first, n).value ==> h in items
    decreases n
  {
    if n > 0 {
      ChainLength(items, items[first].link, n - 1);
    }
  }

  /** The list is unchanged when the links of its members are. */
  lemma {:induction false} ChainFrame(items: map<Addr, Item>, items': map<Addr, Item>, first: Addr, n: nat)
    requires Chain(items, first, n).Some?
    requires forall h :: h in Chain(items, first, n).value ==>
             h in items && h in items' && items'[h].link == items[h].link
    ensures Chain(items', first, n) == Chain(items, first, n)
    decreases n
  {
    if n > 0 {
      var rest := Chain(items, items[first].link, n - 1).value;
      assert Chain(items, first, n).value == [first] + rest;
      assert first in Chain(items, first, n).value;
      forall h | h in rest
        ensures h in Chain(items, first, n).value
      {
      }
      ChainFrame(items, items', items[first].link, n - 1);
    }
  }

  ghost predicate NoRepeats(l: seq<Addr>) {
    forall i, j :: 0 <= i < j < |l| ==> l[i] != l[j]
  }

  // ----- pages -----

  /** Every item of the page is in place with its tail intact. */
  ghost predicate Carved(realSize: nat, perPage: nat, p: Addr, items: map<Addr, Item>, magics: map<Addr, nat>) {
    forall o :: Slotted(realSize, perPage, o) ==>
      && p + o in items && items[p + o].offset == o
      && TailOf(realSize, p + o) in magics && magics[TailOf(realSize, p + o)] == MAGIC
  }

  /** The items of a page. */
  predicate Within(items: map<Addr, Item>, p: Addr, h: Addr) {
    h in items && p + items[h].offset == h
  }

  /** The first free_count items of the list are, without repeats, exactly the free items of the page. */
  ghost predicate Listed(p: Addr, pg: Page, items: map<Addr, Item>) {
    && Chain(items, pg.freeItem, pg.freeCount).Some?
    && var l := Chain(items, pg.freeItem, pg.freeCount).value;
    && NoRepeats(l)
    && (forall h :: h in l ==> Within(items, p, h) && !items[h].used)
    && (forall h :: Within(items, p, h) && !items[h].used ==> h in l)
  }

  ghost predicate Apart(p: Addr, q: Addr) {
    p + PAGE_SIZE <= q || q + PAGE_SIZE <= p
  }

  ghost predicate PagesApart(s: State) {
    forall p, q :: p in s.pages && q in s.pages && p != q ==> Apart(p, q)
  }

  ghost predicate ItemsInPages(s: State) {
    forall h :: h in s.items ==>
      && Slotted(s.realSize, s.perPage, s.items[h].offset)
      && h >= s.items[h].offset && (h - s.items[h].offset) in s.pages
  }

  ghost predicate PagesOk(s: State) {
    forall p :: p in s.pages ==>
      Carved(s.realSize, s.perPage, p, s.items, s.magics) && Listed(p, s.pages[p], s.items)
  }

  /** Each page is on exactly one list: full pages have no free item, alloc pages have some. */
  ghost predicate ListsOk(s: State) {
    && NoRepeats(s.fullPages) && NoRepeats(s.allocPages)
    && (forall p :: p in s.pages <==> p in s.fullPages || p in s.allocPages)
    && (forall p :: p in s.fullPages ==> p !in s.allocPages && s.pages[p].freeCount == 0)
    && (forall p :: p in s.allocPages ==> p in s.pages && 0 < s.pages[p].freeCount)
  }

  // ----- counters -----

  ghost function Live(s: State): set<Addr> {
    set h | h in s.items && s.items[h].used
  }

  /** Items per page less free items, summed over a list of pages. */
  ghost function UsedIn(s: State, l: seq<Addr>): int {
    if l == [] then 0
    else (if l[0] in s.pages then s.perPage - s.pages[l[0]].freeCount else 0) + UsedIn(s, l[1..])
  }

  ghost predicate CountsOk(s: State) {
    && s.pageCount == Wrap(|s.pages|)
    && |s.pages| == |s.fullPages| + |s.allocPages|
    && s.allocItemCount == Wrap(|Live(s)|)
    && |Live(s)| == UsedIn(s, s.fullPages) + UsedIn(s, s.allocPages)
  }

  /** After each call an alloc page also has an item in use: an empty page is given back at once. */
  ghost predicate NoEmptyPage(s: State) {
    forall p :: p in s.allocPages && p in s.pages ==> s.pages[p].freeCount < s.perPage
  }

  ghost predicate Inner(s: State) {
    && Geometry(s.realSize, s.perPage)
    && PagesApart(s) && ItemsInPages(s) && PagesOk(s) && ListsOk(s) && CountsOk(s)
  }

  ghost predicate Inv(s: State) {
    Inner(s) && NoEmptyPage(s)
  }

  // ----- what holds of the items in use -----

  /** The item's footprint: header, payload and tail. */
  lemma FootprintsApart(s: State, h: Addr, k: Addr)
    requires Geometry(s.realSize, s.perPage) && PagesApart(s) && ItemsInPages(s)
    requires h in s.items && k in s.items && h != k
    ensures h + Stride(s.realSize) <= k || k + Stride(s.realSize) <= h
  {
    var oh, ok := s.items[h].offset, s.items[k].offset;
    var i :| 0 <= i < s.perPage && Offset(s.realSize, i) == oh;
    var j :| 0 <= j < s.perPage && Offset(s.realSize, j) == ok;
    OffsetInside(s.realSize, s.perPage, i);
    OffsetInside(s.realSize, s.perPage, j);
    if h - oh == k - ok {
      if i < j {
        OffsetsApart(s.realSize, i, j);
      } else if j < i {
        OffsetsApart(s.realSize, j, i);
      }
    } else {
      assert Apart(h - oh, k - ok);
    }
  }

  lemma FootprintInside(s: State, h: Addr)
    requires Geometry(s.realSize, s.perPage) && ItemsInPages(s) && h in s.items
    ensures var p := h - s.items[h].offset;
            && p in s.pages && p + PAGE_HEAD <= h && h + Stride(s.realSize) <= p + PAGE_SIZE
  {
    var i :| 0 <= i < s.perPage && Offset(s.realSize, i) == s.items[h].offset;
    OffsetInside(s.realSize, s.perPage, i);
  }

  /** Two items are in the same page only if their headers say so. */
  lemma OnePage(s: State, p: Addr, h: Addr)
    requires Geometry(s.realSize, s.perPage) && PagesApart(s) && ItemsInPages(s)
    requires p in s.pages && h in s.items
    ensures Within(s.items, p, h) <==> p <= h < p + PAGE_SIZE
  {
    FootprintInside(s, h);
    var q := h - s.items[h].offset;
    if q != p {
      assert Apart(p, q);
    }
  }
}
