// The slab as ey_slab.c keeps it: fields updated in place, pages carved in a loop, a retry after get_page.
module Zone {
  import opened Wrappers
  import opened Slab
  import opened SlabInvariant
  import opened SlabSteps
  import opened SlabMoves
  import opened SlabRuns

  class Zone {
    var fullPages: seq<Addr>
    var allocPages: seq<Addr>
    var pageCount: nat
    var allocItemCount: nat
    var realSize: nat
    var perPage: nat
    var pages: map<Addr, Page>
    var items: map<Addr, Item>
    var magics: map<Addr, nat>

    ghost function Value(): State
      reads this
    {
      State(fullPages, allocPages, pageCount, allocItemCount, realSize, perPage, pages, items, magics)
    }

    /** ey_zinit, for a size its test accepts. */
    constructor (size: int)
      requires -0x8000_0000 <= size < 0x8000_0000 && Accepts(size)
      ensures ZInit(size) == Some(Value())
      ensures size <= 992 ==> Inv(Value()) && Live(Value()) == {}
    {
      var body := RealSize(size);
      realSize := body % 0x1_0000;
      fullPages, allocPages := [], [];
      pageCount, allocItemCount := 0, 0;
      perPage := (PAGE_SIZE - PAGE_HEAD) / (body + HEAD + TAIL) % 0x1_0000;
      pages, items, magics := map[], map[], map[];
      new;
      if size <= 992 {
        InitKeeps(size);
      }
    }

    /** The body of get_page's loop. */
    method LayOut(page: Addr, p: Addr)
      requires page in pages && page <= p
      modifies this`items, this`magics, this`pages
      ensures Value() == CarveItem(old(Value()), page, p)
      ensures page in pages
    {
      items := items[p := Item((p - page) % 0x1_0000, false, pages[page].freeItem)];
      magics := magics[TailOf(realSize, p) := MAGIC];
      pages := pages[page := Page(0, p)];
    }

    /** get_page: false when malloc fails. */
    method TakePage(m: Malloc) returns (ok: bool)
      modifies this
      ensures ok == m.Got?
      ensures Value() == if m.Got? then GetPage(old(Value()), m.page, m.junk) else old(Value())
    {
      hide CarveItem, Offset, Stride;
      if m.Failed? {
        return false;
      }
      var page := m.page;
      ghost var start := Value();
      pages := pages[page := Page(0, m.junk)];
      var index := 0;
      var p := page + PAGE_HEAD;
      FirstOffset(realSize);
      while index < perPage
        invariant 0 <= index <= perPage == start.perPage && realSize == start.realSize
        invariant pageCount == start.pageCount && allocPages == start.allocPages
        invariant p == page + Offset(realSize, index)
        invariant page in pages && Value() == Carve(start, page, m.junk, index)
      {
        LayOut(page, p);
        NextOffset(realSize, index);
        index, p := index + 1, p + Stride(realSize);
      }
      pages := pages[page := Page(perPage, pages[page].freeItem)];
      pageCount := Wrap(pageCount + 1);
      allocPages := [page] + allocPages;
      return true;
    }

    /** ey_zalloc when the alloc list is not empty. */
    method TakeHead() returns (h: Addr)
      requires allocPages != [] && TakeFirst(Value()).Took?
      modifies this
      ensures TakeFirst(old(Value())) == Took(Value(), h)
    {
      hide Wrap;
      var page := allocPages[0];
      h := pages[page].freeItem;
      pages := pages[page := Page((pages[page].freeCount + 0xFFFF) % 0x1_0000, items[h].link)];
      allocItemCount := Wrap(allocItemCount + 1);
      if pages[page].freeCount == 0 {
        allocPages := allocPages[1..];
        fullPages := [page] + fullPages;
      }
      items := items[h := items[h].(used := true)];
    }

    /** ey_zalloc: the header of an item that was not in use, or None when malloc fails. */
    method Alloc(m: Malloc) returns (head: Option<Addr>)
      requires Inv(Value()) && MallocSound(Value(), m)
      modifies this
      ensures Inv(Value())
      ensures head.None? <==> old(allocPages) == [] && m.Failed?
      ensures match ZAlloc(old(Value()), m)
              case Took(s, h) => head == Some(h) && Value() == s
              case _ => head == None && Value() == old(Value())
      ensures head.Some? ==>
        head.value !in old(Live(Value())) && Live(Value()) == old(Live(Value())) + {head.value}
    {
      hide Inner, NoEmptyPage, GetPage, TakeFirst, Live, MallocSound;
      AllocKeeps(Value(), m);
      var retried := false;
      while allocPages == []
        invariant retried ==> m.Got? && allocPages != [] && old(allocPages) == []
        invariant Value() == if retried then GetPage(old(Value()), m.page, m.junk) else old(Value())
        decreases !retried
      {
        var ok := TakePage(m);
        if !ok {
          return None;
        }
        OnePageMore(old(Value()), m);
        retried := true;
      }
      var h := TakeHead();
      return Some(h);
    }

    /** The item goes back to its page. */
    method GoBack(page: Addr, h: Addr)
      requires page in pages && h in items
      modifies this
      ensures Value() == PutBack(old(Value()), page, h)
    {
      allocItemCount := Wrap(allocItemCount - 1);
      items := items[h := items[h].(used := false, link := pages[page].freeItem)];
      pages := pages[page := Page((pages[page].freeCount + 1) % 0x1_0000, h)];
      if pages[page].freeCount == 1 {
        fullPages := Remove(fullPages, page);
        allocPages := allocPages + [page];
      }
    }

    /** The page goes back to malloc. */
    method GivePage(page: Addr)
      modifies this
      ensures Value() == GiveBack(old(Value()), page)
    {
      allocItemCount := Wrap(allocItemCount - 1);
      allocPages := Remove(allocPages, page);
      pageCount := Wrap(pageCount - 1);
      Release(page);
    }

    /** ey_zfree of an item in use, or of NULL. */
    method Free(item: Option<Addr>)
      requires Inv(Value()) && (item.Some? ==> item.value in Live(Value()))
      modifies this
      ensures Inv(Value())
      ensures item.None? ==> Value() == old(Value())
      ensures item.Some? ==> ZFree(old(Value()), item.value) == Done(Value())
      ensures item.Some? ==> Live(Value()) == old(Live(Value())) - {item.value}
    {
      hide Inner, NoEmptyPage, GiveBack, PutBack;
      if item.None? {
        return;
      }
      var h := item.value;
      FreeExactly(Value(), h);
      var page := h - items[h].offset;
      if pages[page].freeCount + 1 == perPage {
        GivePage(page);
      } else {
        GoBack(page, h);
      }
    }

    /** memory_handler.free of a page. */
    method Release(page: Addr)
      modifies this`pages, this`items, this`magics
      ensures Value() == Unmap(old(Value()), page)
    {
      pages := pages - {page};
      items := map h | h in items && !(page <= h < page + PAGE_SIZE) :: items[h];
      magics := map h | h in magics && !(page <= h < page + PAGE_SIZE) :: magics[h];
    }

    /** ey_zclear. */
    method Clear()
      requires Inv(Value())
      modifies this
      ensures Value() == ZClear(old(Value()))
      ensures Inv(Value()) && pages == map[] && items == map[]
    {
      ClearForgets(Value());
      ghost var start := Value();
      var rest := fullPages;
      while rest != []
        invariant UnmapAll(start, start.fullPages) == UnmapAll(Value(), rest)
        invariant allocPages == start.allocPages
        decreases |rest|
      {
        Release(rest[0]);
        rest := rest[1..];
      }
      rest := allocPages;
      ghost var half := Value();
      while rest != []
        invariant UnmapAll(half, start.allocPages) == UnmapAll(Value(), rest)
        decreases |rest|
      {
        Release(rest[0]);
        rest := rest[1..];
      }
      fullPages, allocPages := [], [];
      pageCount, allocItemCount := 0, 0;
    }
  }

  lemma FirstOffset(realSize: nat)
    ensures Offset(realSize, 0) == PAGE_HEAD
  {
  }

  lemma OnePageMore(s: State, m: Malloc)
    requires Inv(s) && MallocSound(s, m) && m.Got?
    ensures GetPage(s, m.page, m.junk).allocPages != []
    ensures TakeFirst(GetPage(s, m.page, m.junk)).Took?
  {
    GetPageKeeps(s, m.page, m.junk);
    TakeFirstKeeps(GetPage(s, m.page, m.junk));
  }

  lemma NextOffset(realSize: nat, i: nat)
    ensures Offset(realSize, i + 1) == Offset(realSize, i) + Stride(realSize)
  {
    assert (i + 1) * Stride(realSize) == i * Stride(realSize) + Stride(realSize);
  }
}
