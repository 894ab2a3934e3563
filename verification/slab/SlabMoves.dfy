// ey_zalloc and ey_zfree keep the invariant and change the items in use by exactly one.
module SlabMoves {
  import opened Wrappers
  import opened Slab
  import opened SlabInvariant
  import opened SlabSteps

  // ----- how many free items a page can list -----

  ghost function Members(l: seq<Addr>): set<Addr> {
    set h | h in l
  }

  lemma {:induction false} DistinctCount(l: seq<Addr>)
    requires NoRepeats(l)
    ensures |Members(l)| == |l|
  {
    if l != [] {
      var rest := l[1..];
      assert NoRepeats(rest) by {
        assert forall i :: 0 <= i < |rest| ==> rest[i] == l[i + 1];
      }
      DistinctCount(rest);
      assert l[0] !in rest;
      assert Members(l) == Members(rest) + {l[0]};
    }
  }

  lemma {:induction false} SubsetCount(a: set<Addr>, b: set<Addr>)
    requires a <= b
    ensures |a| <= |b|
    ensures |a| == |b| ==> a == b
  {
    assert b == a + (b - a);
    assert |b| == |a| + |b - a|;
  }

  ghost function FreeList(s: State, p: Addr): seq<Addr>
    requires PageOk(s, p)
  {
    Chain(s.items, s.pages[p].freeItem, s.pages[p].freeCount).value
  }

  lemma FreeListInSlots(s: State, p: Addr)
    requires ItemsInPages(s) && PageOk(s, p)
    ensures |FreeList(s, p)| == s.pages[p].freeCount
    ensures Members(FreeList(s, p)) <= Members(Slots(s.realSize, p, s.perPage))
    ensures |Members(FreeList(s, p))| == s.pages[p].freeCount
    ensures |Members(Slots(s.realSize, p, s.perPage))| == s.perPage
  {
    hide Slotted, Carved, Slots, Chain;
    ChainLength(s.items, s.pages[p].freeItem, s.pages[p].freeCount);
    SlotsAreSlotted(s.realSize, s.perPage, p);
    SlotsDiffer(s.realSize, p, s.perPage);
    SlotsAre(s.realSize, p, s.perPage);
    DistinctCount(FreeList(s, p));
    DistinctCount(Slots(s.realSize, p, s.perPage));
    forall h | h in FreeList(s, p)
      ensures h in Slots(s.realSize, p, s.perPage)
    {
      assert Within(s.items, p, h);
    }
  }

  lemma FreeCountFits(s: State, p: Addr)
    requires Geometry(s.realSize, s.perPage) && ItemsInPages(s) && PageOk(s, p)
    ensures s.pages[p].freeCount <= s.perPage <= PAGE_SIZE
  {
    hide Geometry, ItemsInPages, PageOk, Slots;
    EnoughItems(s.realSize, s.perPage);
    FreeListInSlots(s, p);
    SubsetCount(Members(FreeList(s, p)), Members(Slots(s.realSize, p, s.perPage)));
  }

  /** A page with all but one item free: the others are all on its list. */
  lemma LastItem(s: State, p: Addr, h: Addr)
    requires Inner(s) && p in s.pages && Within(s.items, p, h) && s.items[h].used
    requires s.pages[p].freeCount + 1 == s.perPage
    ensures forall g :: Within(s.items, p, g) && g != h ==> !s.items[g].used
  {
    hide Slotted, Carved, Slots, Chain, PagesApart, ListsOk, CountsOk, Geometry, NoRepeats;
    assert PageOk(s, p);
    var l, all := Members(FreeList(s, p)), Members(Slots(s.realSize, p, s.perPage));
    FreeListInSlots(s, p);
    SlotsAreSlotted(s.realSize, s.perPage, p);
    assert h !in l && h in all;
    SubsetCount(l + {h}, all);
    forall g | Within(s.items, p, g) && g != h
      ensures !s.items[g].used
    {
      assert g in all;
      assert g in l;
    }
  }

  // ----- sums over the page lists -----

  lemma {:induction false} UsedChange(s: State, s': State, l: seq<Addr>, p: Addr, pg: Page)
    requires s'.perPage == s.perPage && p in s.pages && s'.pages == s.pages[p := pg] && NoRepeats(l)
    ensures UsedIn(s', l) == UsedIn(s, l) + (if p in l then s.pages[p].freeCount - pg.freeCount else 0)
  {
    if l != [] {
      var rest := l[1..];
      assert forall i :: 0 <= i < |rest| ==> rest[i] == l[i + 1];
      assert l[0] !in rest;
      assert l == [l[0]] + rest;
      UsedChange(s, s', rest, p, pg);
    }
  }

  lemma {:induction false} RemoveDoes(l: seq<Addr>, p: Addr)
    requires NoRepeats(l) && p in l
    ensures NoRepeats(Remove(l, p)) && |Remove(l, p)| == |l| - 1
    ensures forall q :: q in Remove(l, p) <==> q in l && q != p
  {
    var rest := l[1..];
    assert forall i :: 0 <= i < |rest| ==> rest[i] == l[i + 1];
    assert l == [l[0]] + rest && l[0] !in rest;
    if l[0] != p {
      RemoveDoes(rest, p);
    }
  }

  lemma {:induction false} UsedRemove(s: State, l: seq<Addr>, p: Addr)
    requires p in l && p in s.pages
    ensures UsedIn(s, Remove(l, p)) == UsedIn(s, l) - (s.perPage - s.pages[p].freeCount)
  {
    if l[0] != p {
      assert l == [l[0]] + l[1..];
      UsedRemove(s, l[1..], p);
      assert Remove(l, p)[1..] == Remove(l[1..], p);
    }
  }

  lemma {:induction false} UsedAppend(s: State, l: seq<Addr>, p: Addr)
    requires p in s.pages
    ensures UsedIn(s, l + [p]) == UsedIn(s, l) + (s.perPage - s.pages[p].freeCount)
  {
    if l == [] {
      assert l + [p] == [p];
      assert UsedIn(s, [p][1..]) == 0;
    } else {
      UsedAppend(s, l[1..], p);
      assert (l + [p])[1..] == l[1..] + [p];
    }
  }

  // ----- one item and its page change -----

  /** Only the item at h and the header of its page p change. */
  ghost predicate OneItem(s: State, s': State, p: Addr, h: Addr) {
    && p in s.pages && Within(s.items, p, h) && p in s'.pages && h in s'.items
    && s'.items == s.items[h := s'.items[h]] && s'.items[h].offset == s.items[h].offset
    && s'.pages == s.pages[p := s'.pages[p]]
    && s'.magics == s.magics && s'.realSize == s.realSize && s'.perPage == s.perPage
  }

  lemma OneItemCarved(s: State, s': State, p: Addr, h: Addr)
    requires Carved(s.realSize, s.perPage, p, s.items, s.magics) && OneItem(s, s', p, h)
    ensures Carved(s'.realSize, s'.perPage, p, s'.items, s'.magics)
  {
    hide Slotted, TailOf;
  }

  lemma OneItemInPages(s: State, s': State, p: Addr, h: Addr)
    requires ItemsInPages(s) && OneItem(s, s', p, h)
    ensures ItemsInPages(s')
  {
    hide Slotted;
  }

  lemma OneItemKeeps(s: State, s': State, p: Addr, h: Addr)
    requires PagesApart(s) && ItemsInPages(s) && PagesOk(s) && OneItem(s, s', p, h)
    requires Listed(p, s'.pages[p], s'.items)
    ensures PagesApart(s') && ItemsInPages(s') && PagesOk(s')
  {
    hide ItemsInPages, Carved, Listed;
    OneItemInPages(s, s', p, h);
    forall q | q in s'.pages
      ensures Carved(s'.realSize, s'.perPage, q, s'.items, s'.magics) && Listed(q, s'.pages[q], s'.items)
    {
      if q == p {
        OneItemCarved(s, s', p, h);
      } else {
        OtherPage(s, s', p, h, q);
      }
    }
  }

  lemma OtherPage(s: State, s': State, p: Addr, h: Addr, q: Addr)
    requires PagesOk(s) && OneItem(s, s', p, h) && q in s.pages && q != p
    ensures PageOk(s', q)
  {
    hide Carved, Listed;
    assert SamePage(s, s', q);
    PageKept(s, s', q);
  }

  // ----- ey_zalloc -----

  /** Taking the first of a list without repeats. */
  lemma TailOfList(l: seq<Addr>)
    requires l != [] && NoRepeats(l)
    ensures NoRepeats(l[1..]) && forall g :: g in l[1..] <==> g in l && g != l[0]
  {
    assert forall i :: 0 <= i < |l[1..]| ==> l[1..][i] == l[i + 1];
    assert l == [l[0]] + l[1..];
  }

  lemma TakenListed(s: State, s': State, p: Addr, h: Addr)
    requires PageOk(s, p) && 0 < s.pages[p].freeCount && h == s.pages[p].freeItem && h in s.items
    requires OneItem(s, s', p, h) && s'.items[h] == s.items[h].(used := true)
    requires s'.pages[p] == Page(s.pages[p].freeCount - 1, s.items[h].link)
    ensures Listed(p, s'.pages[p], s'.items)
  {
    hide Carved, NoRepeats;
    var l := FreeList(s, p);
    var rest := Chain(s.items, s.items[h].link, s.pages[p].freeCount - 1).value;
    assert l == [h] + rest && l[1..] == rest;
    TailOfList(l);
    ChainLength(s.items, s.items[h].link, s.pages[p].freeCount - 1);
    ChainFrame(s.items, s'.items, s.items[h].link, s.pages[p].freeCount - 1);
  }

  lemma FirstFree(s: State, p: Addr)
    requires PageOk(s, p) && 0 < s.pages[p].freeCount
    ensures var h := s.pages[p].freeItem; Within(s.items, p, h) && !s.items[h].used
  {
    assert s.pages[p].freeItem == FreeList(s, p)[0];
    assert s.pages[p].freeItem in FreeList(s, p);
  }

  /** TakeFirst never meets a bad link or an item in use; it takes one item that was free. */
  lemma TakeFirstKeeps(s: State)
    requires Inner(s) && s.allocPages != []
    ensures TakeFirst(s).Took?
    ensures var s', h := TakeFirst(s).state, TakeFirst(s).head;
            && h in s.items && h !in Live(s) && Live(s') == Live(s) + {h}
            && Inner(s') && s'.perPage == s.perPage
            && (forall q :: q in s.pages ==> q in s'.pages && s'.pages[q].freeCount <= s.pages[q].freeCount)
            && s'.pages[s.allocPages[0]].freeCount < s.perPage
            && (forall q :: q in s'.allocPages ==> q in s.allocPages && q in s.pages)
  {
    hide Slotted, Carved, Listed, Chain, NoRepeats, UsedIn, Geometry, Wrap, PagesApart, ItemsInPages, CountsOk;
    var p := s.allocPages[0];
    assert p in s.allocPages && PageOk(s, p);
    FirstFree(s, p);
    FreeCountFits(s, p);
    var h := s.pages[p].freeItem;
    var s' := TakeFirst(s).state;
    TakenPages(s, s', p, h);
    assert Live(s') == Live(s) + {h};
    TakeFirstLists(s, s', p);
    TakeFirstCounts(s, s', p, h);
  }

  lemma TakenPages(s: State, s': State, p: Addr, h: Addr)
    requires PagesApart(s) && ItemsInPages(s) && PagesOk(s)
    requires p in s.pages && 0 < s.pages[p].freeCount && h == s.pages[p].freeItem && h in s.items
    requires OneItem(s, s', p, h) && s'.items[h] == s.items[h].(used := true)
    requires s'.pages[p] == Page(s.pages[p].freeCount - 1, s.items[h].link)
    ensures PagesApart(s') && ItemsInPages(s') && PagesOk(s')
  {
    hide PagesApart, ItemsInPages, Listed, Carved;
    TakenListed(s, s', p, h);
    OneItemKeeps(s, s', p, h);
  }

  lemma TakeFirstLists(s: State, s': State, p: Addr)
    requires ListsOk(s) && s.allocPages != [] && p == s.allocPages[0]
    requires p in s'.pages && s'.pages == s.pages[p := s'.pages[p]]
    requires var empty := s'.pages[p].freeCount == 0;
             && s'.allocPages == (if empty then s.allocPages[1..] else s.allocPages)
             && s'.fullPages == (if empty then [p] + s.fullPages else s.fullPages)
    ensures ListsOk(s')
  {
    assert p in s.allocPages;
    assert s.allocPages == [p] + s.allocPages[1..];
  }

  lemma InOneList(s: State, p: Addr)
    requires ListsOk(s) && p in s.pages
    ensures NoRepeats(s.allocPages) && NoRepeats(s.fullPages)
    ensures p in s.allocPages <==> p !in s.fullPages
    ensures p in s.allocPages <==> s.pages[p].freeCount > 0
  {
  }

  lemma TakeFirstSum(s: State, s': State, p: Addr)
    requires ListsOk(s) && s.allocPages != [] && p == s.allocPages[0] && p in s.pages
    requires p in s'.pages && s'.pages == s.pages[p := s'.pages[p]] && s'.perPage == s.perPage
    requires s'.pages[p].freeCount == s.pages[p].freeCount - 1
    requires var empty := s'.pages[p].freeCount == 0;
             && s'.allocPages == (if empty then s.allocPages[1..] else s.allocPages)
             && s'.fullPages == (if empty then [p] + s.fullPages else s.fullPages)
    ensures UsedIn(s', s'.fullPages) + UsedIn(s', s'.allocPages) ==
            UsedIn(s, s.fullPages) + UsedIn(s, s.allocPages) + 1
    ensures |s'.fullPages| + |s'.allocPages| == |s.fullPages| + |s.allocPages|
  {
    InOneList(s, p);
    assert p in s.allocPages;
    hide ListsOk, NoRepeats;
    UsedChange(s, s', s.allocPages, p, s'.pages[p]);
    UsedChange(s, s', s.fullPages, p, s'.pages[p]);
    assert ([p] + s.fullPages)[1..] == s.fullPages;
  }

  lemma TakeFirstCounts(s: State, s': State, p: Addr, h: Addr)
    requires ListsOk(s) && CountsOk(s) && s.allocPages != [] && p == s.allocPages[0] && p in s.pages
    requires p in s'.pages && s'.pages == s.pages[p := s'.pages[p]] && s'.perPage == s.perPage
    requires s'.pages[p].freeCount == s.pages[p].freeCount - 1
    requires h !in Live(s) && Live(s') == Live(s) + {h}
    requires s'.allocItemCount == Wrap(s.allocItemCount + 1) && s'.pageCount == s.pageCount
    requires var empty := s'.pages[p].freeCount == 0;
             && s'.allocPages == (if empty then s.allocPages[1..] else s.allocPages)
             && s'.fullPages == (if empty then [p] + s.fullPages else s.fullPages)
    ensures CountsOk(s')
  {
    hide Live, Wrap, ListsOk;
    assert p in s.allocPages && p !in s.fullPages by {
      InOneList(s, p);
    }
    TakeFirstSum(s, s', p);
    assert s'.pages.Keys == s.pages.Keys;
    NextCount(s.allocItemCount, |Live(s)|, s'.allocItemCount, |Live(s')|);
  }

  // ----- ey_zfree -----

  lemma ReturnedListed(s: State, s': State, p: Addr, h: Addr)
    requires PageOk(s, p) && Within(s.items, p, h) && s.items[h].used
    requires OneItem(s, s', p, h) && s'.items[h] == s.items[h].(used := false, link := s.pages[p].freeItem)
    requires s'.pages[p] == Page(s.pages[p].freeCount + 1, h)
    ensures Listed(p, s'.pages[p], s'.items)
  {
    hide Carved;
    var l := FreeList(s, p);
    assert h !in l;
    ChainLength(s.items, s.pages[p].freeItem, s.pages[p].freeCount);
    ChainFrame(s.items, s'.items, s.pages[p].freeItem, s.pages[p].freeCount);
    assert Chain(s'.items, h, s.pages[p].freeCount + 1) == Some([h] + l);
  }

  lemma ReturnedPages(s: State, s': State, p: Addr, h: Addr)
    requires PagesApart(s) && ItemsInPages(s) && PagesOk(s)
    requires p in s.pages && Within(s.items, p, h) && s.items[h].used
    requires OneItem(s, s', p, h) && s'.items[h] == s.items[h].(used := false, link := s.pages[p].freeItem)
    requires s'.pages[p] == Page(s.pages[p].freeCount + 1, h)
    ensures PagesApart(s') && ItemsInPages(s') && PagesOk(s')
  {
    hide PagesApart, ItemsInPages, Listed, Carved;
    ReturnedListed(s, s', p, h);
    OneItemKeeps(s, s', p, h);
  }

  /** The page lists after an item has gone back to its page: a full page moves to the end of the alloc list. */
  ghost predicate ReturnedTo(s: State, s': State, p: Addr) {
    && p in s.pages && p in s'.pages && s'.pages == s.pages[p := s'.pages[p]] && s'.perPage == s.perPage
    && s'.pages[p].freeCount == s.pages[p].freeCount + 1
    && s'.fullPages == (if s'.pages[p].freeCount == 1 then Remove(s.fullPages, p) else s.fullPages)
    && s'.allocPages == (if s'.pages[p].freeCount == 1 then s.allocPages + [p] else s.allocPages)
  }

  lemma ReturnedLists(s: State, s': State, p: Addr)
    requires ListsOk(s) && ReturnedTo(s, s', p)
    ensures ListsOk(s')
  {
    InOneList(s, p);
    if s'.pages[p].freeCount == 1 {
      RemoveDoes(s.fullPages, p);
    }
  }

  lemma ReturnedSum(s: State, s': State, p: Addr)
    requires ListsOk(s) && ReturnedTo(s, s', p)
    ensures UsedIn(s', s'.fullPages) + UsedIn(s', s'.allocPages) ==
            UsedIn(s, s.fullPages) + UsedIn(s, s.allocPages) - 1
    ensures |s'.fullPages| + |s'.allocPages| == |s.fullPages| + |s.allocPages|
  {
    InOneList(s, p);
    hide ListsOk, NoRepeats;
    UsedChange(s, s', s.allocPages, p, s'.pages[p]);
    UsedChange(s, s', s.fullPages, p, s'.pages[p]);
    if s'.pages[p].freeCount == 1 {
      RemoveDoes(s.fullPages, p);
      UsedRemove(s', s.fullPages, p);
      UsedAppend(s', s.allocPages, p);
    }
  }

  lemma ReturnedCounts(s: State, s': State, p: Addr, h: Addr)
    requires ListsOk(s) && CountsOk(s) && ReturnedTo(s, s', p)
    requires h in Live(s) && Live(s') == Live(s) - {h}
    requires s'.allocItemCount == Wrap(s.allocItemCount - 1) && s'.pageCount == s.pageCount
    ensures CountsOk(s')
  {
    hide Live, Wrap, ListsOk;
    ReturnedSum(s, s', p);
    assert s'.pages.Keys == s.pages.Keys;
    PreviousCount(s.allocItemCount, |Live(s)|, s'.allocItemCount, |Live(s')|);
  }

  /** The page goes back to malloc: nothing of it stays, and nothing else changes. */
  lemma UnmapDoes(s: State, s': State, p: Addr)
    requires Geometry(s.realSize, s.perPage) && PagesApart(s) && ItemsInPages(s) && PagesOk(s) && p in s.pages
    requires s'.items == Unmap(s, p).items && s'.magics == Unmap(s, p).magics && s'.pages == s.pages - {p}
    requires s'.realSize == s.realSize && s'.perPage == s.perPage
    ensures PagesApart(s') && ItemsInPages(s') && PagesOk(s')
    ensures forall g :: g in s'.items <==> g in s.items && !Within(s.items, p, g)
    ensures forall g :: g in s'.items ==> s'.items[g] == s.items[g]
  {
    hide Slotted, Carved, Listed, Geometry, TailOf;
    forall g | g in s.items
      ensures g in s'.items <==> !Within(s.items, p, g)
    {
      OnePage(s, p, g);
    }
    assert ItemsInPages(s');
    forall q | q in s'.pages
      ensures PageOk(s', q)
    {
      UnmapElsewhere(s, s', p, q);
    }
    assert forall q :: q in s'.pages ==> PageOk(s', q);
  }

  lemma UnmapElsewhere(s: State, s': State, p: Addr, q: Addr)
    requires Geometry(s.realSize, s.perPage) && PagesApart(s) && ItemsInPages(s) && PagesOk(s)
    requires p in s.pages && q in s.pages && p != q
    requires s'.items == Unmap(s, p).items && s'.magics == Unmap(s, p).magics && s'.pages == s.pages - {p}
    requires s'.realSize == s.realSize && s'.perPage == s.perPage
    ensures PageOk(s', q)
  {
    hide Slotted, Carved, Listed, Geometry, TailOf;
    assert Apart(p, q);
    forall g: Addr | Within(s.items, q, g)
      ensures !(p <= g < p + PAGE_SIZE) && !(p <= TailOf(s.realSize, g) < p + PAGE_SIZE)
    {
      HomeOf(s, g);
    }
    assert SamePage(s, s', q);
    PageKept(s, s', q);
  }

  /** The page lists after a page has been given back. */
  ghost predicate GivenBack(s: State, s': State, p: Addr) {
    && p in s.pages && s'.pages == s.pages - {p} && s'.perPage == s.perPage
    && s.pages[p].freeCount + 1 == s.perPage
    && s'.fullPages == s.fullPages && s'.allocPages == Remove(s.allocPages, p)
  }

  lemma GivenBackLists(s: State, s': State, p: Addr)
    requires ListsOk(s) && GivenBack(s, s', p) && p in s.allocPages
    ensures ListsOk(s')
  {
    RemoveDoes(s.allocPages, p);
  }

  lemma GivenBackSum(s: State, s': State, p: Addr)
    requires ListsOk(s) && GivenBack(s, s', p) && p in s.allocPages
    ensures UsedIn(s', s'.fullPages) + UsedIn(s', s'.allocPages) ==
            UsedIn(s, s.fullPages) + UsedIn(s, s.allocPages) - 1
    ensures |s'.fullPages| + |s'.allocPages| == |s.fullPages| + |s.allocPages| - 1
  {
    InOneList(s, p);
    hide ListsOk, NoRepeats;
    RemoveDoes(s.allocPages, p);
    UsedRemove(s, s.allocPages, p);
    UsedFrame(s, s', s.fullPages);
    UsedFrame(s, s', s'.allocPages);
  }

  lemma GivenBackCounts(s: State, s': State, p: Addr, h: Addr)
    requires ListsOk(s) && CountsOk(s) && GivenBack(s, s', p) && p in s.allocPages
    requires h in Live(s) && Live(s') == Live(s) - {h}
    requires s'.allocItemCount == Wrap(s.allocItemCount - 1) && s'.pageCount == Wrap(s.pageCount - 1)
    ensures CountsOk(s')
  {
    hide Live, Wrap, ListsOk, UsedIn, Remove;
    GivenBackSum(s, s', p);
    assert s.pages.Keys == s'.pages.Keys + {p};
    PreviousCount(s.pageCount, |s.pages|, s'.pageCount, |s'.pages|);
    PreviousCount(s.allocItemCount, |Live(s)|, s'.allocItemCount, |Live(s')|);
  }

  /** What ey_zfree relies on: where the page is, that the magic is intact, and which list the page is on. */
  lemma FreeFinds(s: State, p: Addr, h: Addr)
    requires ItemsInPages(s) && PagesOk(s) && h in s.items && p + s.items[h].offset == h
    ensures p in s.pages && PageOk(s, p) && Within(s.items, p, h)
    ensures TailOf(s.realSize, h) in s.magics && s.magics[TailOf(s.realSize, h)] == MAGIC
  {
    hide ItemsInPages, Slotted, Listed, Carved, TailOf;
    ItemHome(s, p, h);
    CarvedAt(s, p, s.items[h].offset);
  }

  lemma ItemHome(s: State, p: Addr, h: Addr)
    requires ItemsInPages(s) && h in s.items && p + s.items[h].offset == h
    ensures p in s.pages && Slotted(s.realSize, s.perPage, s.items[h].offset)
  {
  }

  lemma CarvedAt(s: State, p: Addr, o: nat)
    requires Carved(s.realSize, s.perPage, p, s.items, s.magics) && Slotted(s.realSize, s.perPage, o)
    ensures TailOf(s.realSize, p + o) in s.magics && s.magics[TailOf(s.realSize, p + o)] == MAGIC
  {
  }

  lemma FreeFindsList(s: State, p: Addr)
    requires Inner(s) && p in s.pages
    ensures s.pages[p].freeCount <= s.perPage && 4 <= s.perPage <= PAGE_SIZE
    ensures s.pages[p].freeCount + 1 == s.perPage ==> p in s.allocPages && p !in s.fullPages
    ensures s.pages[p].freeCount == 0 ==> p in s.fullPages
  {
    hide Slotted, Listed, Carved, NoRepeats, UsedIn, PagesApart, CountsOk;
    assert PageOk(s, p);
    FreeCountFits(s, p);
    EnoughItems(s.realSize, s.perPage);
    InOneList(s, p);
  }

  lemma FreeReturns(s: State, p: Addr, h: Addr)
    requires Inv(s) && h in Live(s) && p + s.items[h].offset == h
    requires p in s.pages && s.pages[p].freeCount + 1 != s.perPage
    ensures ZFree(s, h).Done? && Inv(ZFree(s, h).state) && Live(ZFree(s, h).state) == Live(s) - {h}
  {
    hide Slotted, Carved, Listed, NoRepeats, UsedIn, Geometry, Wrap, PagesApart,
      ItemsInPages, PagesOk, CountsOk, ListsOk;
    FreeFinds(s, p, h);
    FreeFindsList(s, p);
    var s' := ZFree(s, h).state;
    ReturnedPages(s, s', p, h);
    assert Live(s') == Live(s) - {h};
    ReturnedLists(s, s', p);
    ReturnedCounts(s, s', p, h);
  }

  lemma FreeGivesBack(s: State, p: Addr, h: Addr)
    requires Inv(s) && h in Live(s) && p + s.items[h].offset == h
    requires p in s.pages && s.pages[p].freeCount + 1 == s.perPage
    ensures ZFree(s, h).Done? && Inv(ZFree(s, h).state) && Live(ZFree(s, h).state) == Live(s) - {h}
  {
    hide Slotted, Carved, Listed, NoRepeats, UsedIn, Geometry, Wrap, PagesApart,
      ItemsInPages, PagesOk, CountsOk, ListsOk;
    FreeFinds(s, p, h);
    FreeFindsList(s, p);
    var s' := ZFree(s, h).state;
    LastItem(s, p, h);
    UnmapDoes(s, s', p);
    GivenBackLive(s, s', p, h);
    GivenBackLists(s, s', p);
    GivenBackCounts(s, s', p, h);
    RemoveIn(s.allocPages, p);
  }

  lemma GivenBackLive(s: State, s': State, p: Addr, h: Addr)
    requires Within(s.items, p, h) && s.items[h].used
    requires forall g :: Within(s.items, p, g) && g != h ==> !s.items[g].used
    requires forall g :: g in s'.items <==> g in s.items && !Within(s.items, p, g)
    requires forall g :: g in s'.items ==> s'.items[g] == s.items[g]
    ensures Live(s') == Live(s) - {h}
  {
  }

  lemma {:induction false} RemoveIn(l: seq<Addr>, p: Addr)
    ensures forall q :: q in Remove(l, p) ==> q in l
  {
    if l != [] && l[0] != p {
      RemoveIn(l[1..], p);
    }
  }
}
