// A page's list head is never initialised, so the last link of a fresh page's list is whatever malloc's
// memory held. No answer of the slab depends on it.
module SlabJunk {
  import opened Wrappers
  import opened Slab
  import opened SlabInvariant
  import opened SlabSteps
  import opened SlabMoves
  import opened SlabRuns

  /** The first free_count items of the two lists are the same. */
  ghost predicate SameList(s: State, t: State, p: Addr)
    requires p in s.pages && p in t.pages
  {
    && s.pages[p].freeCount == t.pages[p].freeCount
    && Chain(s.items, s.pages[p].freeItem, s.pages[p].freeCount).Some?
    && Chain(t.items, t.pages[p].freeItem, t.pages[p].freeCount) ==
       Chain(s.items, s.pages[p].freeItem, s.pages[p].freeCount)
  }

  ghost predicate SameItem(a: Item, b: Item) {
    a.offset == b.offset && a.used == b.used
  }

  /** The two slabs are equal but for links beyond the first free_count items of each page. */
  ghost predicate Alike(s: State, t: State) {
    && t == s.(pages := t.pages, items := t.items)
    && s.pages.Keys == t.pages.Keys && s.items.Keys == t.items.Keys
    && (forall p :: p in s.pages ==> SameList(s, t, p))
    && (forall h :: h in s.items ==> SameItem(s.items[h], t.items[h]))
  }

  /** One item and its page change alike in both. */
  lemma OneItemAlike(s: State, t: State, s': State, t': State, p: Addr, h: Addr)
    requires Alike(s, t) && OneItem(s, s', p, h) && OneItem(t, t', p, h)
    requires SameItem(s'.items[h], t'.items[h]) && SameList(s', t', p)
    requires t' == s'.(pages := t'.pages, items := t'.items)
    requires forall q :: q in s.pages && q != p ==>
      h !in Chain(s.items, s.pages[q].freeItem, s.pages[q].freeCount).value
    ensures Alike(s', t')
  {
    hide Chain;
    forall q | q in s'.pages
      ensures SameList(s', t', q)
    {
      if q != p {
        assert SameList(s, t, q);
        ChainLength(s.items, s.pages[q].freeItem, s.pages[q].freeCount);
        ChainLength(t.items, t.pages[q].freeItem, t.pages[q].freeCount);
        ChainFrame(s.items, s'.items, s.pages[q].freeItem, s.pages[q].freeCount);
        ChainFrame(t.items, t'.items, t.pages[q].freeItem, t.pages[q].freeCount);
      }
    }
  }

  lemma NotElsewhere(s: State, p: Addr, h: Addr)
    requires PagesOk(s) && Within(s.items, p, h)
    ensures forall q :: q in s.pages && q != p ==>
      h !in Chain(s.items, s.pages[q].freeItem, s.pages[q].freeCount).value
  {
    forall q | q in s.pages && q != p
      ensures h !in Chain(s.items, s.pages[q].freeItem, s.pages[q].freeCount).value
    {
      assert Listed(q, s.pages[q], s.items);
    }
  }

  lemma FirstAlike(s: State, t: State, p: Addr)
    requires p in s.pages && p in t.pages && SameList(s, t, p) && 0 < s.pages[p].freeCount
    ensures var h := s.pages[p].freeItem;
            && h == t.pages[p].freeItem && h in s.items && h in t.items
            && Chain(s.items, s.items[h].link, s.pages[p].freeCount - 1).Some?
            && Chain(t.items, t.items[h].link, s.pages[p].freeCount - 1) ==
               Chain(s.items, s.items[h].link, s.pages[p].freeCount - 1)
  {
    var h, k := s.pages[p].freeItem, t.pages[p].freeItem;
    var n := s.pages[p].freeCount - 1;
    var a := Chain(s.items, s.items[h].link, n).value;
    var b := Chain(t.items, t.items[k].link, n).value;
    assert [h] + a == [k] + b;
    assert ([h] + a)[0] == h && ([k] + b)[0] == k;
    assert ([h] + a)[1..] == a && ([k] + b)[1..] == b;
  }

  lemma TakenSameList(s: State, t: State, s': State, t': State, p: Addr, h: Addr)
    requires Alike(s, t) && p in s.pages && 0 < s.pages[p].freeCount && h == s.pages[p].freeItem && h in s.items
    requires OneItem(s, s', p, h) && OneItem(t, t', p, h)
    requires s'.items[h] == s.items[h].(used := true) && t'.items[h] == t.items[h].(used := true)
    requires s'.pages[p] == Page(s.pages[p].freeCount - 1, s.items[h].link)
    requires t'.pages[p] == Page(s.pages[p].freeCount - 1, t.items[h].link)
    ensures SameList(s', t', p)
  {
    hide Chain;
    assert SameList(s, t, p);
    FirstAlike(s, t, p);
    var n := s.pages[p].freeCount - 1;
    ChainLength(s.items, s.items[h].link, n);
    ChainLength(t.items, t.items[h].link, n);
    ChainFrame(s.items, s'.items, s.items[h].link, n);
    ChainFrame(t.items, t'.items, t.items[h].link, n);
  }

  /** The first page of the alloc list, and its first free item, in two slabs that are alike. */
  lemma FirstOfBoth(s: State, t: State, p: Addr, h: Addr)
    requires Inner(s) && Inner(t) && Alike(s, t) && s.allocPages != []
    requires p == s.allocPages[0] && p in s.pages && h == s.pages[p].freeItem
    ensures p in t.pages && h == t.pages[p].freeItem && h in s.items && h in t.items
    ensures !s.items[h].used && !t.items[h].used && Within(s.items, p, h) && Within(t.items, p, h)
    ensures 0 < s.pages[p].freeCount == t.pages[p].freeCount <= s.perPage <= PAGE_SIZE
  {
    hide Geometry, PagesApart, ItemsInPages, CountsOk, NoRepeats, Carved, Listed, Chain;
    assert p in s.allocPages && PageOk(s, p);
    assert SameList(s, t, p);
    FirstFree(s, p);
    FirstAlike(s, t, p);
    FreeCountFits(s, p);
    assert SameItem(s.items[h], t.items[h]);
  }

  lemma TakeAlike(s: State, t: State)
    requires Inner(s) && Inner(t) && Alike(s, t) && s.allocPages != []
    ensures TakeFirst(s).Took? && TakeFirst(t).Took?
    ensures TakeFirst(s).head == TakeFirst(t).head
    ensures Alike(TakeFirst(s).state, TakeFirst(t).state)
  {
    hide Geometry, PagesApart, ItemsInPages, PagesOk, CountsOk, Within, Chain;
    var p := s.allocPages[0];
    assert p in s.allocPages && p in s.pages;
    var h := s.pages[p].freeItem;
    FirstOfBoth(s, t, p, h);
    var s', t' := TakeFirst(s).state, TakeFirst(t).state;
    TakenWithin(s, t, p, h);
    NotElsewhere(s, p, h);
    hide ListsOk, Alike, SameList;
    TakenSameList(s, t, s', t', p, h);
    OneItemAlike(s, t, s', t', p, h);
  }

  lemma TakenWithin(s: State, t: State, p: Addr, h: Addr)
    requires h in s.items && h in t.items && Within(s.items, p, h) && Within(t.items, p, h)
    ensures p + s.items[h].offset == h == p + t.items[h].offset
  {
  }

  // ----- get_page -----

  lemma GetPageAlike(s: State, t: State, p: Addr, junk: Addr, junk': Addr)
    requires Inner(s) && Inner(t) && Alike(s, t) && FreshPage(s, p)
    ensures Alike(GetPage(s, p, junk), GetPage(t, p, junk'))
  {
    hide Inner, Alike, GetPage, SameList, SameItem, Carve, FreshPage;
    GetPageLists(s, t, p, junk, junk');
    GetPageItems(s, t, p, junk, junk');
    GetPageRest(s, t, p, junk, junk');
    PutTogether(GetPage(s, p, junk), GetPage(t, p, junk'));
  }

  lemma PutTogether(a: State, b: State)
    requires b == a.(pages := b.pages, items := b.items)
    requires a.pages.Keys == b.pages.Keys && a.items.Keys == b.items.Keys
    requires forall q :: q in a.pages ==> q in b.pages && SameList(a, b, q)
    requires forall h :: h in a.items ==> h in b.items && SameItem(a.items[h], b.items[h])
    ensures Alike(a, b)
  {
    hide SameList, SameItem;
  }

  lemma GetPageRest(s: State, t: State, p: Addr, junk: Addr, junk': Addr)
    requires Inner(s) && Inner(t) && Alike(s, t) && FreshPage(s, p)
    ensures var a, b := GetPage(s, p, junk), GetPage(t, p, junk');
            b == a.(pages := b.pages, items := b.items)
  {
    hide Geometry, Slotted, Slots, Chain, TailOf, NoRepeats, PagesOk, ListsOk, CountsOk, GetPage;
    GetPageShape(s, p, junk);
    GetPageShape(t, p, junk');
    GetPageMagics(s, t, p, junk, junk', s.perPage);
    SameMagics(s, p, junk);
    SameMagics(t, p, junk');
  }

  lemma SameMagics(s: State, p: Addr, junk: Addr)
    ensures GetPage(s, p, junk).magics == Carve(s, p, junk, s.perPage).magics
  {
  }

  lemma GetPageLists(s: State, t: State, p: Addr, junk: Addr, junk': Addr)
    requires Inner(s) && Inner(t) && Alike(s, t) && FreshPage(s, p)
    ensures var a, b := GetPage(s, p, junk), GetPage(t, p, junk');
            a.pages.Keys == b.pages.Keys && forall q :: q in a.pages ==> q in b.pages && SameList(a, b, q)
  {
    hide Geometry, Slotted, Slots, Chain, TailOf, GetPage, NoRepeats, PagesOk, ListsOk, CountsOk;
    var a, b := GetPage(s, p, junk), GetPage(t, p, junk');
    GetPageShape(s, p, junk);
    GetPageShape(t, p, junk');
    forall q | q in a.pages
      ensures q in b.pages && SameList(a, b, q)
    {
      if q != p {
        GetPageSameList(s, t, a, b, q);
      }
    }
  }

  lemma GetPageItems(s: State, t: State, p: Addr, junk: Addr, junk': Addr)
    requires Inner(s) && Inner(t) && Alike(s, t) && FreshPage(s, p)
    ensures var a, b := GetPage(s, p, junk), GetPage(t, p, junk');
            && a.items.Keys == b.items.Keys
            && forall h :: h in a.items ==> h in b.items && SameItem(a.items[h], b.items[h])
  {
    hide Geometry, Slotted, Slots, Chain, TailOf, GetPage, NoRepeats, PagesOk, ListsOk, CountsOk;
    var a, b := GetPage(s, p, junk), GetPage(t, p, junk');
    GetPageShape(s, p, junk);
    GetPageShape(t, p, junk');
    forall h | h in a.items
      ensures h in b.items && SameItem(a.items[h], b.items[h])
    {
      if h in Slots(s.realSize, p, s.perPage) {
        assert Placed(a, p, h) && Placed(b, p, h);
      }
    }
    assert a.items.Keys == b.items.Keys;
  }

  lemma GetPageSameList(s: State, t: State, a: State, b: State, q: Addr)
    requires Alike(s, t) && q in s.pages && q in a.pages && q in b.pages
    requires a.pages[q] == s.pages[q] && b.pages[q] == t.pages[q]
    requires forall h :: h in s.items ==> h in a.items && a.items[h] == s.items[h]
    requires forall h :: h in t.items ==> h in b.items && b.items[h] == t.items[h]
    ensures SameList(a, b, q)
  {
    hide Chain;
    assert SameList(s, t, q);
    ChainLength(s.items, s.pages[q].freeItem, s.pages[q].freeCount);
    ChainLength(t.items, t.pages[q].freeItem, t.pages[q].freeCount);
    ChainFrame(s.items, a.items, s.pages[q].freeItem, s.pages[q].freeCount);
    ChainFrame(t.items, b.items, t.pages[q].freeItem, t.pages[q].freeCount);
  }

  lemma {:induction false} GetPageMagics(s: State, t: State, p: Addr, junk: Addr, junk': Addr, k: nat)
    requires s.magics == t.magics && s.realSize == t.realSize
    ensures Carve(s, p, junk, k).magics == Carve(t, p, junk', k).magics
    ensures Carve(s, p, junk, k).realSize == s.realSize && Carve(t, p, junk', k).realSize == s.realSize
    decreases k
  {
    hide Offset, TailOf;
    if k > 0 {
      GetPageMagics(s, t, p, junk, junk', k - 1);
    }
  }

  // ----- ey_zfree -----

  lemma ReturnedSameList(s: State, t: State, s': State, t': State, p: Addr, h: Addr)
    requires Alike(s, t) && p in s.pages && PageOk(s, p) && h in s.items && s.items[h].used
    requires OneItem(s, s', p, h) && OneItem(t, t', p, h)
    requires s'.pages[p] == Page(s.pages[p].freeCount + 1, h) && t'.pages[p] == Page(t.pages[p].freeCount + 1, h)
    requires s'.items[h].link == s.pages[p].freeItem && t'.items[h].link == t.pages[p].freeItem
    ensures SameList(s', t', p)
  {
    assert SameList(s, t, p);
    var n := s.pages[p].freeCount;
    ChainLength(s.items, s.pages[p].freeItem, n);
    ChainLength(t.items, t.pages[p].freeItem, n);
    assert h !in FreeList(s, p);
    ChainFrame(s.items, s'.items, s.pages[p].freeItem, n);
    ChainFrame(t.items, t'.items, t.pages[p].freeItem, n);
  }

  /** What ey_zfree finds in two slabs that are alike. */
  lemma FreeFindsBoth(s: State, t: State, p: Addr, h: Addr)
    requires Inner(s) && Inner(t) && Alike(s, t) && h in Live(s) && p + s.items[h].offset == h
    ensures h in Live(t) && p + t.items[h].offset == h && p in s.pages && p in t.pages
    ensures t.pages[p].freeCount == s.pages[p].freeCount && PageOk(s, p)
    ensures Within(s.items, p, h) && Within(t.items, p, h)
    ensures TailOf(s.realSize, h) in s.magics && s.magics[TailOf(s.realSize, h)] == MAGIC
    ensures s.pages[p].freeCount <= s.perPage && s.perPage <= PAGE_SIZE
    ensures s.pages[p].freeCount + 1 == s.perPage ==> p in s.allocPages
    ensures s.pages[p].freeCount == 0 ==> p in s.fullPages
  {
    hide Geometry, PagesApart, PagesOk, ListsOk, CountsOk, NoRepeats, Carved, Listed, Chain, Slotted, TailOf;
    FreeFinds(s, p, h);
    FreeFindsList(s, p);
    assert SameItem(s.items[h], t.items[h]) && SameList(s, t, p);
  }

  lemma PutBackOne(s: State, p: Addr, h: Addr)
    requires p in s.pages && Within(s.items, p, h) && s.pages[p].freeCount < PAGE_SIZE
    ensures var s' := PutBack(s, p, h);
            && OneItem(s, s', p, h) && s'.pages[p] == Page(s.pages[p].freeCount + 1, h)
            && !s'.items[h].used && s'.items[h].link == s.pages[p].freeItem
  {
  }

  lemma PutBackRest(s: State, t: State, p: Addr, h: Addr)
    requires t == s.(pages := t.pages, items := t.items)
    requires p in s.pages && p in t.pages && h in s.items && h in t.items
    requires t.pages[p].freeCount == s.pages[p].freeCount
    ensures var s', t' := PutBack(s, p, h), PutBack(t, p, h);
            t' == s'.(pages := t'.pages, items := t'.items)
  {
  }

  lemma PutBackAlike(s: State, t: State, p: Addr, h: Addr)
    requires Alike(s, t) && PagesOk(s) && p in s.pages && p in t.pages
    requires Within(s.items, p, h) && Within(t.items, p, h) && s.items[h].used
    requires t.pages[p].freeCount == s.pages[p].freeCount < PAGE_SIZE
    ensures Alike(PutBack(s, p, h), PutBack(t, p, h))
  {
    assert PageOk(s, p);
    NotElsewhere(s, p, h);
    hide PutBack, PagesOk, PageOk, Chain, SameList;
    PutBackOne(s, p, h);
    PutBackOne(t, p, h);
    PutBackRest(s, t, p, h);
    ReturnedSameList(s, t, PutBack(s, p, h), PutBack(t, p, h), p, h);
    OneItemAlike(s, t, PutBack(s, p, h), PutBack(t, p, h), p, h);
  }

  lemma GiveBackIs(s: State, p: Addr)
    requires Inner(s) && p in s.pages
    ensures var s' := GiveBack(s, p);
            && s'.pages == s.pages - {p}
            && (forall g :: g in s'.items <==> g in s.items && !Within(s.items, p, g))
            && (forall g :: g in s'.items ==> s'.items[g] == s.items[g])
  {
    hide Geometry, PagesApart, ItemsInPages, PagesOk, ListsOk, CountsOk, Within;
    UnmapDoes(s, GiveBack(s, p), p);
  }

  lemma GiveBackRest(s: State, t: State, p: Addr)
    requires Alike(s, t)
    ensures var a, b := GiveBack(s, p), GiveBack(t, p);
            b == a.(pages := b.pages, items := b.items)
  {
  }

  lemma GiveBackSameList(s: State, t: State, a: State, b: State, p: Addr, q: Addr)
    requires Alike(s, t) && PagesOk(s) && q in s.pages && q != p
    requires a.pages == s.pages - {p} && b.pages == t.pages - {p}
    requires forall g :: g in a.items <==> g in s.items && !Within(s.items, p, g)
    requires forall g :: g in a.items ==> a.items[g] == s.items[g]
    requires forall g :: g in b.items <==> g in t.items && !Within(t.items, p, g)
    requires forall g :: g in b.items ==> b.items[g] == t.items[g]
    ensures SameList(a, b, q)
  {
    hide NoRepeats, Carved, Chain;
    assert SameList(s, t, q) && Listed(q, s.pages[q], s.items);
    var n := s.pages[q].freeCount;
    forall h | h in Chain(s.items, s.pages[q].freeItem, n).value
      ensures h in a.items && h in b.items && h in s.items && h in t.items
    {
      assert Within(s.items, q, h) && SameItem(s.items[h], t.items[h]);
    }
    ChainFrame(s.items, a.items, s.pages[q].freeItem, n);
    ChainFrame(t.items, b.items, t.pages[q].freeItem, n);
  }

  lemma GiveBackAlike(s: State, t: State, p: Addr)
    requires Inner(s) && Inner(t) && Alike(s, t) && p in s.pages
    ensures Alike(GiveBack(s, p), GiveBack(t, p))
  {
    hide GiveBack, Geometry, PagesApart, ItemsInPages, ListsOk, CountsOk, SameList, PagesOk;
    var a, b := GiveBack(s, p), GiveBack(t, p);
    GiveBackIs(s, p);
    GiveBackIs(t, p);
    GiveBackRest(s, t, p);
    forall q | q in a.pages
      ensures q in b.pages && SameList(a, b, q)
    {
      GiveBackSameList(s, t, a, b, p, q);
    }
    forall h | h in s.items
      ensures h in a.items <==> h in b.items
      ensures h in a.items ==> SameItem(a.items[h], b.items[h])
    {
      assert SameItem(s.items[h], t.items[h]);
    }
    assert a.pages.Keys == b.pages.Keys && a.items.Keys == b.items.Keys;
    PutTogether(a, b);
  }

  lemma FreeIs(s: State, p: Addr, h: Addr)
    requires h in s.items && p + s.items[h].offset == h && p in s.pages && s.items[h].used
    requires TailOf(s.realSize, h) in s.magics && s.magics[TailOf(s.realSize, h)] == MAGIC
    requires s.pages[p].freeCount <= PAGE_SIZE
    requires s.pages[p].freeCount + 1 == s.perPage ==> p in s.allocPages
    requires s.pages[p].freeCount == 0 ==> p in s.fullPages
    ensures ZFree(s, h) == Done(if s.pages[p].freeCount + 1 == s.perPage then GiveBack(s, p) else PutBack(s, p, h))
  {
    hide GiveBack, PutBack, TailOf;
  }

  lemma FreeAlike(s: State, t: State, h: Addr)
    requires Inv(s) && Inv(t) && Alike(s, t) && h in Live(s)
    ensures ZFree(s, h).Done? && ZFree(t, h).Done? && Alike(ZFree(s, h).state, ZFree(t, h).state)
  {
    ItemBack(s, h);
    var p := h - s.items[h].offset;
    BelowFull(s, p, h);
    hide ZFree, GiveBack, PutBack, Geometry, PagesApart, ItemsInPages, ListsOk, CountsOk,
      SameList, PagesOk, PageOk, TailOf;
    FreeFindsBoth(s, t, p, h);
    FreeIs(s, p, h);
    FreeIs(t, p, h);
    if s.pages[p].freeCount + 1 == s.perPage {
      GiveBackAlike(s, t, p);
    } else {
      PutBackAlike(s, t, p, h);
    }
  }

  lemma BelowFull(s: State, p: Addr, h: Addr)
    requires Inv(s) && h in Live(s) && p + s.items[h].offset == h
    ensures p in s.pages && s.pages[p].freeCount < PAGE_SIZE
  {
    hide PagesApart, PagesOk, CountsOk, Slotted, NoRepeats;
    EnoughItems(s.realSize, s.perPage);
  }

  // ----- runs -----

  /** The same requests, but for what malloc's memory holds. */
  predicate SameRequest(a: Request, b: Request) {
    match (a, b)
    case (Free(h), Free(k)) => h == k
    case (Alloc(Failed), Alloc(Failed)) => true
    case (Alloc(Got(p, _)), Alloc(Got(q, _))) => p == q
    case _ => false
  }

  ghost predicate SameSession(c: Session, d: Session) {
    SessionOk(c) && SessionOk(d) && c.held == d.held && Alike(c.slab, d.slab)
  }

  lemma AllocAlike(s: State, t: State, m: Malloc, m': Malloc)
    requires Inv(s) && Inv(t) && Alike(s, t) && MallocSound(s, m) && SameRequest(Alloc(m), Alloc(m'))
    ensures ZAlloc(s, m).NoMemory? <==> ZAlloc(t, m').NoMemory?
    ensures ZAlloc(s, m).Took? <==> ZAlloc(t, m').Took?
    ensures ZAlloc(s, m).Took? ==>
      ZAlloc(s, m).head == ZAlloc(t, m').head && Alike(ZAlloc(s, m).state, ZAlloc(t, m').state)
    ensures MallocSound(t, m')
  {
    hide Inner, TakeFirst, GetPage;
    if s.allocPages != [] {
      TakeAlike(s, t);
    } else if m.Got? {
      GetPageAlike(s, t, m.page, m.junk, m'.junk);
      GetPageKeeps(s, m.page, m.junk);
      GetPageKeeps(t, m.page, m'.junk);
      TakeAlike(GetPage(s, m.page, m.junk), GetPage(t, m.page, m'.junk));
    }
  }

  lemma ServeAlike(c: Session, d: Session, r: Request, r': Request)
    requires SameSession(c, d) && SameRequest(r, r')
    requires match r case Alloc(m) => MallocSound(c.slab, m) case Free(h) => h in c.held
    ensures SameSession(Serve(c, r), Serve(d, r'))
  {
    hide Inv, Live, ZAlloc, ZFree, MallocSound, Alike;
    match r
    case Alloc(m) =>
      AllocAlike(c.slab, d.slab, m, r'.malloc);
      ServeKeeps(c, r);
      ServeKeeps(d, r');
    case Free(h) =>
      FreeAlike(c.slab, d.slab, h);
      ServeKeeps(c, r);
      ServeKeeps(d, r');
  }

  /** Over every legal run, what a client is handed does not depend on what malloc's memory held. */
  lemma {:induction false} JunkUnobservable(c: Session, d: Session, rs: seq<Request>, rs': seq<Request>)
    requires SameSession(c, d) && Legal(c, rs)
    requires |rs| == |rs'| && forall i :: 0 <= i < |rs| ==> SameRequest(rs[i], rs'[i])
    ensures SameSession(ServeAll(c, rs), ServeAll(d, rs'))
    decreases |rs|
  {
    hide Serve, SameRequest, Alike, Inv, Live, MallocSound;
    if rs != [] {
      ServeAlike(c, d, rs[0], rs'[0]);
      assert forall i :: 0 <= i < |rs[1..]| ==> rs[1..][i] == rs[i + 1] && rs'[1..][i] == rs'[i + 1];
      JunkUnobservable(Serve(c, rs[0]), Serve(d, rs'[0]), rs[1..], rs'[1..]);
    }
  }
}
