// get_page, ey_zalloc and ey_zfree keep the invariant.
module SlabSteps {
  import opened Wrappers
  import opened Slab
  import opened SlabInvariant

  // ----- get_page -----

  /** malloc hands out memory that is not part of any page. */
  ghost predicate FreshPage(s: State, p: Addr) {
    forall q :: q in s.pages ==> Apart(p, q)
  }

  /** The first k headers of page p, the last one first: the order in which get_page leaves them. */
  function Slots(realSize: nat, p: Addr, k: nat): seq<Addr> {
    if k == 0 then [] else [p + Offset(realSize, k - 1)] + Slots(realSize, p, k - 1)
  }

  lemma {:induction false} SlotsAre(realSize: nat, p: Addr, k: nat)
    ensures |Slots(realSize, p, k)| == k
    ensures forall i :: 0 <= i < k ==> Slots(realSize, p, k)[i] == p + Offset(realSize, k - 1 - i)
    decreases k
  {
    hide Offset;
    if k > 0 {
      SlotsAre(realSize, p, k - 1);
    }
  }

  lemma SlotsDiffer(realSize: nat, p: Addr, k: nat)
    ensures NoRepeats(Slots(realSize, p, k))
    ensures p + Offset(realSize, k) !in Slots(realSize, p, k)
  {
    hide Offset;
    SlotsAre(realSize, p, k);
    forall i, j | 0 <= i < k && 0 <= j <= k && i != j
      ensures Offset(realSize, i) != Offset(realSize, j)
    {
      OffsetsDiffer(realSize, i, j);
    }
  }

  /** Outside the page a round of get_page's loop changes nothing. */
  ghost predicate Untouched(s: State, p: Addr, c: State) {
    && p in c.pages
    && c == s.(pages := s.pages[p := c.pages[p]], items := c.items, magics := c.magics)
    && (forall h :: h in s.items ==> h in c.items)
    && (forall h :: h in s.items && !(p <= h < p + PAGE_SIZE) ==> c.items[h] == s.items[h])
    && (forall h :: h in s.magics ==> h in c.magics)
    && (forall h :: h in s.magics && !(p <= h < p + PAGE_SIZE) ==> c.magics[h] == s.magics[h])
  }

  /** The item at h is in place, free, and its tail holds the magic. */
  predicate Placed(s: State, p: Addr, h: Addr) {
    && h in s.items && p + s.items[h].offset == h && !s.items[h].used
    && TailOf(s.realSize, h) in s.magics && s.magics[TailOf(s.realSize, h)] == MAGIC
  }

  /** What the page looks like after k rounds of get_page's loop. */
  ghost predicate CarvedUpTo(s: State, p: Addr, k: nat, c: State) {
    && Untouched(s, p, c)
    && (forall h :: h in c.items ==> h in s.items || h in Slots(s.realSize, p, k))
    && (forall h :: h in Slots(s.realSize, p, k) ==> Placed(c, p, h))
    && Chain(c.items, c.pages[p].freeItem, k) == Some(Slots(s.realSize, p, k))
  }

  lemma TailBefore(realSize: nat, h: Addr)
    ensures h < TailOf(realSize, h) < h + Stride(realSize)
  {
  }

  lemma UntouchedStep(s: State, p: Addr, c: State, h: Addr)
    requires Untouched(s, p, c) && p <= h && h + Stride(s.realSize) <= p + PAGE_SIZE
    ensures Untouched(s, p, CarveItem(c, p, h)) && p in c.pages
  {
    hide Stride, TailOf;
    TailBefore(s.realSize, h);
  }

  lemma PlacedStep(s: State, p: Addr, h: Addr, g: Addr)
    requires p in s.pages && Placed(s, p, g) && h != g && h >= p
    ensures Placed(CarveItem(s, p, h), p, g)
  {
  }

  lemma CarveOne(s: State, p: Addr, k: nat, c: State, h: Addr)
    requires CarvedUpTo(s, p, k, c)
    requires p <= h && h + Stride(s.realSize) <= p + PAGE_SIZE
    requires h !in Slots(s.realSize, p, k) && h == p + Offset(s.realSize, k)
    ensures CarvedUpTo(s, p, k + 1, CarveItem(c, p, h))
  {
    hide Offset, Stride, Untouched, Placed, TailOf;
    UntouchedStep(s, p, c, h);
    CarveRest(s, p, k, c, h);
    ChainOfCarve(c, p, k, h, Slots(s.realSize, p, k));
  }

  lemma CarveRest(s: State, p: Addr, k: nat, c: State, h: Addr)
    requires CarvedUpTo(s, p, k, c)
    requires p <= h && h + Stride(s.realSize) <= p + PAGE_SIZE
    requires h !in Slots(s.realSize, p, k) && h == p + Offset(s.realSize, k)
    ensures var d := CarveItem(c, p, h); var l := Slots(s.realSize, p, k + 1);
            && l == [h] + Slots(s.realSize, p, k)
            && (forall g :: g in d.items ==> g in s.items || g in l)
            && (forall g :: g in l ==> Placed(d, p, g))
  {
    hide Offset, Chain;
    var d := CarveItem(c, p, h);
    var l := Slots(s.realSize, p, k);
    forall g | g in l
      ensures Placed(d, p, g)
    {
      PlacedStep(c, p, h, g);
    }
    assert Placed(d, p, h);
  }

  lemma ChainOfCarve(c: State, p: Addr, k: nat, h: Addr, l: seq<Addr>)
    requires p in c.pages && h >= p
    requires Chain(c.items, c.pages[p].freeItem, k) == Some(l) && h !in l
    ensures Chain(CarveItem(c, p, h).items, h, k + 1) == Some([h] + l)
  {
    ChainLength(c.items, c.pages[p].freeItem, k);
    ChainFrame(c.items, CarveItem(c, p, h).items, c.pages[p].freeItem, k);
  }

  lemma CarvedNone(s: State, p: Addr, junk: Addr)
    ensures CarvedUpTo(s, p, 0, Carve(s, p, junk, 0))
  {
  }

  lemma {:induction false} CarveDoes(s: State, p: Addr, junk: Addr, k: nat)
    requires Geometry(s.realSize, s.perPage) && k <= s.perPage
    ensures CarvedUpTo(s, p, k, Carve(s, p, junk, k))
    decreases k
  {
    hide Geometry, Offset, Stride, CarvedUpTo, NoRepeats, Slots;
    if k == 0 {
      CarvedNone(s, p, junk);
    } else {
      CarveDoes(s, p, junk, k - 1);
      OffsetInside(s.realSize, s.perPage, k - 1);
      SlotsDiffer(s.realSize, p, k - 1);
      CarveStays(s, p, junk, k - 1);
      CarveOne(s, p, k - 1, Carve(s, p, junk, k - 1), p + Offset(s.realSize, k - 1));
    }
  }

  lemma {:induction false} CarveStays(s: State, p: Addr, junk: Addr, k: nat)
    ensures Carve(s, p, junk, k).realSize == s.realSize
    decreases k
  {
    if k > 0 {
      CarveStays(s, p, junk, k - 1);
    }
  }

  // ----- what a step leaves alone -----

  /** The step changes neither the page nor its items. */
  ghost predicate SamePage(s: State, s': State, q: Addr) {
    && s'.realSize == s.realSize && s'.perPage == s.perPage
    && q in s.pages && q in s'.pages && s'.pages[q] == s.pages[q]
    && (forall h :: Within(s'.items, q, h) <==> Within(s.items, q, h))
    && (forall h :: Within(s.items, q, h) ==> s'.items[h] == s.items[h])
    && (forall h :: Within(s.items, q, h) && TailOf(s.realSize, h) in s.magics ==>
          TailOf(s.realSize, h) in s'.magics && s'.magics[TailOf(s.realSize, h)] == s.magics[TailOf(s.realSize, h)])
  }

  ghost predicate PageOk(s: State, q: Addr) {
    && q in s.pages
    && Carved(s.realSize, s.perPage, q, s.items, s.magics) && Listed(q, s.pages[q], s.items)
  }

  lemma PageKept(s: State, s': State, q: Addr)
    requires PageOk(s, q) && SamePage(s, s', q)
    ensures PageOk(s', q)
  {
    hide Slotted, TailOf, NoRepeats;
    var l := Chain(s.items, s.pages[q].freeItem, s.pages[q].freeCount).value;
    forall o | Slotted(s.realSize, s.perPage, o)
      ensures Within(s.items, q, q + o)
    {
    }
    forall h | h in l
      ensures h in s.items && h in s'.items && s'.items[h].link == s.items[h].link
    {
      assert Within(s.items, q, h) && Within(s'.items, q, h);
    }
    ChainFrame(s.items, s'.items, s.pages[q].freeItem, s.pages[q].freeCount);
  }

  /** What an item and its page know of each other. */
  lemma HomeOf(s: State, h: Addr)
    requires Geometry(s.realSize, s.perPage) && ItemsInPages(s) && h in s.items
    ensures var q := h - s.items[h].offset;
            q in s.pages && Within(s.items, q, h) && q < h < TailOf(s.realSize, h) < q + PAGE_SIZE
  {
    FootprintInside(s, h);
  }

  lemma {:induction false} UsedFrame(s: State, s': State, l: seq<Addr>)
    requires s'.perPage == s.perPage
    requires forall p :: p in l ==> (p in s'.pages <==> p in s.pages)
    requires forall p :: p in l && p in s.pages ==> s'.pages[p].freeCount == s.pages[p].freeCount
    ensures UsedIn(s', l) == UsedIn(s, l)
  {
    if l != [] {
      assert forall p :: p in l[1..] ==> p in l;
      UsedFrame(s, s', l[1..]);
    }
  }

  // ----- get_page -----

  lemma GetPageShape(s: State, p: Addr, junk: Addr)
    requires Geometry(s.realSize, s.perPage) && ItemsInPages(s) && FreshPage(s, p)
    ensures var s' := GetPage(s, p, junk);
            && s' == s.(pages := s'.pages, items := s'.items, magics := s'.magics,
                        pageCount := Wrap(s.pageCount + 1), allocPages := [p] + s.allocPages)
            && s'.pages == s.pages[p := s'.pages[p]] && s'.pages[p].freeCount == s.perPage
            && (forall h :: h in s.items ==> h in s'.items && s'.items[h] == s.items[h])
            && (forall h :: h in s'.items <==> h in s.items || h in Slots(s.realSize, p, s.perPage))
            && (forall h :: h in Slots(s.realSize, p, s.perPage) ==> Placed(s', p, h))
            && (forall h :: h in s.items && TailOf(s.realSize, h) in s.magics ==>
                  TailOf(s.realSize, h) in s'.magics &&
                  s'.magics[TailOf(s.realSize, h)] == s.magics[TailOf(s.realSize, h)])
            && Chain(s'.items, s'.pages[p].freeItem, s.perPage) == Some(Slots(s.realSize, p, s.perPage))
  {
    hide Geometry, Slotted, ItemsInPages, Slots, Chain, TailOf, Carve;
    CarveDoes(s, p, junk, s.perPage);
    var c := Carve(s, p, junk, s.perPage);
    forall h | h in s.items
      ensures !(p <= h < p + PAGE_SIZE) && !(p <= TailOf(s.realSize, h) < p + PAGE_SIZE)
    {
      HomeOf(s, h);
      assert Apart(p, h - s.items[h].offset);
    }
    forall h | h in Slots(s.realSize, p, s.perPage)
      ensures Placed(GetPage(s, p, junk), p, h)
    {
      assert Placed(c, p, h);
    }
  }

  lemma SlotsAreSlotted(realSize: nat, perPage: nat, p: Addr)
    ensures forall h :: h in Slots(realSize, p, perPage) ==> h >= p && Slotted(realSize, perPage, h - p)
    ensures forall o :: Slotted(realSize, perPage, o) ==> p + o in Slots(realSize, p, perPage)
  {
    hide Offset;
    SlotsAre(realSize, p, perPage);
    forall o | Slotted(realSize, perPage, o)
      ensures p + o in Slots(realSize, p, perPage)
    {
      var i :| 0 <= i < perPage && Offset(realSize, i) == o;
      assert Slots(realSize, p, perPage)[perPage - 1 - i] == p + o;
    }
    forall h | h in Slots(realSize, p, perPage)
      ensures h >= p && Slotted(realSize, perPage, h - p)
    {
      var j :| 0 <= j < perPage && Slots(realSize, p, perPage)[j] == h;
      assert Offset(realSize, perPage - 1 - j) == h - p;
    }
  }

  /** The new page, alone. */
  lemma NewPageOk(s: State, p: Addr, junk: Addr)
    requires Inner(s) && FreshPage(s, p)
    ensures PageOk(GetPage(s, p, junk), p)
    ensures forall h :: Within(GetPage(s, p, junk).items, p, h) <==> h in Slots(s.realSize, p, s.perPage)
  {
    hide Geometry, Slotted, Slots, Chain, TailOf, GetPage, NoRepeats, PagesOk, ListsOk, CountsOk;
    var s' := GetPage(s, p, junk);
    GetPageShape(s, p, junk);
    SlotsAreSlotted(s.realSize, s.perPage, p);
    SlotsDiffer(s.realSize, p, s.perPage);
    forall h | h in s.items
      ensures !Within(s'.items, p, h)
    {
      HomeOf(s, h);
      assert Apart(p, h - s.items[h].offset);
    }
  }

  lemma OldPagesOk(s: State, p: Addr, junk: Addr, q: Addr)
    requires Inner(s) && FreshPage(s, p) && q in s.pages
    ensures PageOk(GetPage(s, p, junk), q) && p != q
  {
    hide Geometry, Slotted, Slots, Chain, TailOf, GetPage, NoRepeats, ListsOk, CountsOk, Carved, Listed;
    var s' := GetPage(s, p, junk);
    GetPageShape(s, p, junk);
    assert Apart(p, q);
    forall h | h in Slots(s.realSize, p, s.perPage)
      ensures !Within(s'.items, q, h)
    {
      assert Placed(s', p, h);
    }
    PageKept(s, s', q);
  }

  /** After get_page: one more page, all of it free, at the head of the alloc list. */
  lemma GetPageKeeps(s: State, p: Addr, junk: Addr)
    requires Inner(s) && FreshPage(s, p)
    ensures var s' := GetPage(s, p, junk);
            && Inner(s') && Live(s') == Live(s) && s'.perPage == s.perPage
            && s'.allocPages == [p] + s.allocPages && s'.fullPages == s.fullPages
            && (forall q :: q in s.pages ==> q in s'.pages && s'.pages[q] == s.pages[q])
  {
    hide Geometry, Slotted, Slots, Chain, TailOf, GetPage, NoRepeats, Carved, Listed, FreshPage;
    var s' := GetPage(s, p, junk);
    GetPageShape(s, p, junk);
    SlotsAreSlotted(s.realSize, s.perPage, p);
    NewPageOk(s, p, junk);
    forall q | q in s.pages
      ensures PageOk(s', q) && p != q
    {
      OldPagesOk(s, p, junk, q);
    }
    assert PagesOk(s') by {
      assert forall q :: q in s'.pages ==> PageOk(s', q);
    }
    GetPageItems(s, p, s');
    EnoughItems(s.realSize, s.perPage);
    GetPageLists(s, p, s');
    GetPageCounts(s, p, s');
  }

  lemma GetPageItems(s: State, p: Addr, s': State)
    requires PagesApart(s) && ItemsInPages(s) && FreshPage(s, p)
    requires s'.realSize == s.realSize && s'.perPage == s.perPage && p in s'.pages &&
             s'.pages == s.pages[p := s'.pages[p]]
    requires forall h :: h in s.items ==> h in s'.items && s'.items[h] == s.items[h]
    requires forall h :: h in s'.items <==> h in s.items || h in Slots(s.realSize, p, s.perPage)
    requires forall h :: h in Slots(s.realSize, p, s.perPage) ==> Placed(s', p, h)
    requires forall h :: h in Slots(s.realSize, p, s.perPage) ==> h >= p && Slotted(s.realSize, s.perPage, h - p)
    ensures PagesApart(s') && ItemsInPages(s') && Live(s') == Live(s)
  {
    hide Slotted, Slots, TailOf;
  }

  lemma GetPageLists(s: State, p: Addr, s': State)
    requires ListsOk(s) && p !in s.pages
    requires p in s'.pages && s'.pages == s.pages[p := s'.pages[p]] && s'.pages[p].freeCount == s.perPage > 0
    requires s'.allocPages == [p] + s.allocPages && s'.fullPages == s.fullPages
    ensures ListsOk(s')
  {
  }

  lemma GetPageSum(s: State, p: Addr, s': State)
    requires ListsOk(s) && p !in s.pages
    requires p in s'.pages && s'.pages == s.pages[p := s'.pages[p]] && s'.pages[p].freeCount == s.perPage
    requires s'.perPage == s.perPage && s'.fullPages == s.fullPages && s'.allocPages == [p] + s.allocPages
    ensures UsedIn(s', s'.fullPages) + UsedIn(s', s'.allocPages) == UsedIn(s, s.fullPages) + UsedIn(s, s.allocPages)
  {
    hide NoRepeats;
    UsedFrame(s, s', s.fullPages);
    UsedFrame(s, s', s.allocPages);
    assert s'.allocPages[0] == p && s'.allocPages[1..] == s.allocPages;
  }

  lemma GetPageCounts(s: State, p: Addr, s': State)
    requires ListsOk(s) && CountsOk(s) && p !in s.pages && Live(s') == Live(s)
    requires p in s'.pages && s'.pages == s.pages[p := s'.pages[p]] && s'.pages[p].freeCount == s.perPage > 0
    requires s'.perPage == s.perPage && s'.fullPages == s.fullPages && s'.allocPages == [p] + s.allocPages
    requires s'.pageCount == Wrap(s.pageCount + 1) && s'.allocItemCount == s.allocItemCount
    ensures CountsOk(s')
  {
    hide Live, Wrap, ListsOk, UsedIn;
    GetPageSum(s, p, s');
    assert s'.pages.Keys == s.pages.Keys + {p};
    NextCount(s.pageCount, |s.pages|, s'.pageCount, |s'.pages|);
  }

  /** A counter that wraps still counts modulo 2^32. */
  lemma NextCount(c: nat, n: nat, c': nat, n': nat)
    requires c == Wrap(n) && c' == Wrap(c + 1) && n' == n + 1
    ensures c' == Wrap(n')
  {
  }

  lemma PreviousCount(c: nat, n: nat, c': nat, n': nat)
    requires c == Wrap(n) && c' == Wrap(c - 1) && n' == n - 1
    ensures c' == Wrap(n')
  {
  }
}
