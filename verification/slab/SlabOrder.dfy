// Which item comes next, the one given back last in its page, and pages in the order in which they are queued; and
// what a release makes of a tail that a client has written over.
module SlabOrder {
  import opened Wrappers
  import opened Slab
  import opened SlabInvariant
  import opened SlabSteps
  import opened SlabMoves
  import opened SlabRuns

  /** The item that an allocation hands out. */
  function Handed(a: Allocated): Option<Addr> {
    if a.Took? then Some(a.head) else None
  }

  function NextAfterFree(s: State, h: Addr, m: Malloc): Option<Addr> {
    match ZFree(s, h)
    case Done(s') => Handed(ZAlloc(s', m))
    case _ => None
  }

  /** h is an item in use on page p. */
  ghost predicate OnPage(s: State, p: Addr, h: Addr) {
    h in Live(s) && p + s.items[h].offset == h && p in s.pages
  }

  /** And not the last one there. */
  ghost predicate GoesBack(s: State, p: Addr, h: Addr) {
    OnPage(s, p, h) && s.pages[p].freeCount + 1 != s.perPage
  }

  /**
    * After an item goes back to its page: if that page is first, or was full while no other page had free items, the
    * next allocation hands the same item out again; otherwise the page is queued and the next one is as before.
    */
  lemma ReusedNext(s: State, p: Addr, h: Addr, m: Malloc)
    requires Inv(s) && GoesBack(s, p, h)
    ensures NextAfterFree(s, h, m) ==
            if s.allocPages == [] || s.allocPages[0] == p then Some(h) else Handed(ZAlloc(s, Failed))
  {
    hide Inv, Inner, ItemsInPages, PagesOk, ZFree, GoesBack, Geometry, PutBack, TakeFirst;
    GoesBackHas(s, p, h);
    PutBackIs(s, p, h);
    InvInner(s);
    FirstPage(s, p);
    FirstListed(s);
    PutBackLists(s, p, h);
    AllocNow(PutBack(s, p, h));
    if s.allocPages != [] {
      AllocNow(s);
    }
  }

  lemma PutBackIs(s: State, p: Addr, h: Addr)
    requires Inv(s) && GoesBack(s, p, h)
    ensures ZFree(s, h) == Done(PutBack(s, p, h)) && Inv(PutBack(s, p, h))
  {
    hide Inner, NoEmptyPage, ItemsInPages, PagesOk, PageOk, Within, Wrap, TailOf;
    GoesBackHas(s, p, h);
    FreeReturns(s, p, h);
    InvInner(s);
    FreeFinds(s, p, h);
    FreeFindsList(s, p);
  }

  lemma GoesBackHas(s: State, p: Addr, h: Addr)
    requires GoesBack(s, p, h)
    ensures p in s.pages && h in s.items
  {
  }

  /** The first page and its first free item afterwards. */
  lemma PutBackLists(s: State, p: Addr, h: Addr)
    requires p in s.pages && h in s.items && s.pages[p].freeCount < 0x1_0000 - 1
    requires s.pages[p].freeCount == 0 <==> p !in s.allocPages
    requires s.allocPages != [] ==> s.allocPages[0] in s.pages
    ensures var s' := PutBack(s, p, h);
            && (s.allocPages == [] ==> s'.allocPages == [p])
            && s'.allocPages != [] && (s.allocPages != [] ==> s'.allocPages[0] == s.allocPages[0])
            && s'.pages == s.pages[p := s'.pages[p]] && s'.pages[p].freeItem == h
  {
    assert s.allocPages != [] ==> s.allocPages[0] in s.allocPages;
  }

  lemma FirstListed(s: State)
    requires Inner(s)
    ensures s.allocPages != [] ==> s.allocPages[0] in s.pages
  {
    hide Geometry, PagesApart, PagesOk, CountsOk, NoRepeats;
    if s.allocPages != [] {
      assert s.allocPages[0] in s.allocPages;
    }
  }

  lemma InvInner(s: State)
    requires Inv(s)
    ensures Inner(s) && ItemsInPages(s) && PagesOk(s)
  {
  }

  lemma AllocNow(s: State)
    requires Inv(s) && s.allocPages != []
    ensures forall m :: ZAlloc(s, m) == TakeFirst(s)
    ensures TakeFirst(s).Took? && s.allocPages[0] in s.pages
    ensures TakeFirst(s).head == s.pages[s.allocPages[0]].freeItem
  {
    hide Inner;
    TakeFirstKeeps(s);
  }

  /** A page that is not full is on the alloc list. */
  lemma FirstPage(s: State, p: Addr)
    requires Inner(s) && p in s.pages
    ensures s.pages[p].freeCount == 0 <==> p !in s.allocPages
    ensures s.pages[p].freeCount <= s.perPage <= PAGE_SIZE
  {
    hide Geometry, PagesApart, PagesOk, CountsOk, NoRepeats;
    FreeFindsList(s, p);
  }

  /** A new page hands out its last item first. */
  lemma NewPageFromItsEnd(s: State, p: Addr, junk: Addr)
    requires Inv(s) && FreshPage(s, p) && s.allocPages == []
    ensures ZAlloc(s, Got(p, junk)).Took? && s.perPage > 0
    ensures ZAlloc(s, Got(p, junk)).head == p + Offset(s.realSize, s.perPage - 1)
  {
    hide PagesApart, PagesOk, ListsOk, CountsOk, NoEmptyPage;
    AllocKeeps(s, Got(p, junk));
    GetPageShape(s, p, junk);
    EnoughItems(s.realSize, s.perPage);
    hide GetPage;
    var s' := GetPage(s, p, junk);
    assert Slots(s.realSize, p, s.perPage)[0] == p + Offset(s.realSize, s.perPage - 1);
    assert s'.pages[p].freeItem == Chain(s'.items, s'.pages[p].freeItem, s.perPage).value[0];
  }

  /** Whatever a client has written over the tails: a release is stopped exactly if the item's own tail has changed. */
  lemma OverwriteExactly(s: State, p: Addr, h: Addr, magics: map<Addr, nat>)
    requires Inv(s) && OnPage(s, p, h) && magics.Keys == s.magics.Keys
    ensures TailOf(s.realSize, h) in magics
    ensures ZFree(s.(magics := magics), h) == Overwritten <==> magics[TailOf(s.realSize, h)] != MAGIC
  {
    hide Inner, NoEmptyPage, ItemsInPages, PagesOk, PageOk, Within, Wrap, TailOf, PutBack, GiveBack;
    InvInner(s);
    FreeFinds(s, p, h);
  }
}
