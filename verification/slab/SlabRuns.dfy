// What a client of the slab can rely on, over every run of requests.
module SlabRuns {
  import opened Wrappers
  import opened Slab
  import opened SlabInvariant
  import opened SlabSteps
  import opened SlabMoves

  // ----- ey_zinit -----

  /** A slab is fit for use exactly when the item fits; the int product in the size test lets huge sizes through. */
  lemma AcceptedFits(size: int)
    requires -0x8000_0000 <= size < 0x8000_0000
    ensures 1 <= size <= 992 ==> Accepts(size)
    ensures Accepts(size) ==>
      (Geometry(ZInit(size).value.realSize, ZInit(size).value.perPage) <==> size <= 992)
  {
    hide Geometry, Int32, RealSize, ZInit;
    if 1 <= size <= 992 {
      SmallAccepted(size);
    } else if Accepts(size) {
      LargeDoesNotFit(size);
    }
  }

  lemma SmallAccepted(size: int)
    requires 1 <= size <= 992
    ensures Accepts(size) && Geometry(ZInit(size).value.realSize, ZInit(size).value.perPage)
  {
    hide Geometry, Int32, RealSize;
    var body := RealSize(size);
    RoundsUp(size);
    SmallFits(body);
    SmallInt(body);
    SmallInt(body + HEAD + TAIL);
    SmallInt((body + HEAD + TAIL) * MIN_PAGE_ITEMS);
    Accepted(size, body);
  }

  lemma Accepted(size: int, body: nat)
    requires 1 <= size <= 992 && body == RealSize(size) && 0 < body <= 992
    requires Int32(body) == body && Int32(body + HEAD + TAIL) == body + HEAD + TAIL
    requires Int32((body + HEAD + TAIL) * MIN_PAGE_ITEMS) == (body + HEAD + TAIL) * MIN_PAGE_ITEMS
    ensures Accepts(size)
  {
    hide Int32, RealSize;
  }

  lemma SmallInt(x: int)
    requires 0 <= x < 0x8000_0000
    ensures Int32(x) == x
  {
  }

  lemma LargeDoesNotFit(size: int)
    requires 992 < size < 0x8000_0000 && Accepts(size)
    ensures !Geometry(ZInit(size).value.realSize, ZInit(size).value.perPage)
  {
    hide Geometry, Accepts, RealSize;
    RoundsUp(size);
    FewItems(RealSize(size) + HEAD + TAIL);
    if Geometry(ZInit(size).value.realSize, ZInit(size).value.perPage) {
      EnoughItems(ZInit(size).value.realSize, ZInit(size).value.perPage);
    }
  }

  lemma RoundsUp(size: nat)
    ensures RealSize(size) % MEM_ROUNDING == 0 && size <= RealSize(size) < size + MEM_ROUNDING
  {
    var q := (size + MEM_ROUNDING - 1) / MEM_ROUNDING;
    assert q * MEM_ROUNDING % MEM_ROUNDING == 0;
  }

  lemma SmallFits(body: nat)
    requires 0 < body <= 992 && body % MEM_ROUNDING == 0
    ensures (PAGE_SIZE - PAGE_HEAD) / (body + HEAD + TAIL) <= PAGE_SIZE
    ensures Geometry(body % 0x1_0000, (PAGE_SIZE - PAGE_HEAD) / (body + HEAD + TAIL) % 0x1_0000)
  {
    var n := (PAGE_SIZE - PAGE_HEAD) / (body + HEAD + TAIL);
    assert n <= PAGE_SIZE;
    assert n % 0x1_0000 == n && body % 0x1_0000 == body;
  }

  lemma FewItems(total: nat)
    requires total >= 1017
    ensures (PAGE_SIZE - PAGE_HEAD) / total % 0x1_0000 < MIN_PAGE_ITEMS
  {
    var n := (PAGE_SIZE - PAGE_HEAD) / total;
    assert n * 1017 <= n * total <= PAGE_SIZE - PAGE_HEAD;
  }

  /** 2^30 - 24 bytes: four items of 2^30 bytes add up to zero. */
  lemma HugeSizeAccepted()
    ensures Accepts(0x3fff_ffe8) && ZInit(0x3fff_ffe8).value.perPage == 0
  {
    assert RealSize(0x3fff_ffe8) == 0x3fff_ffe8;
    assert Int32(0x4000_0000 * MIN_PAGE_ITEMS) == 0;
  }

  lemma InitKeeps(size: int)
    requires 1 <= size <= 992
    ensures ZInit(size).Some? && Inv(ZInit(size).value) && Live(ZInit(size).value) == {}
  {
    AcceptedFits(size);
  }

  // ----- one request -----

  /** malloc may fail, and otherwise hands out memory of its own. */
  ghost predicate MallocSound(s: State, m: Malloc) {
    m.Got? ==> FreshPage(s, m.page)
  }

  /**
    * ey_zalloc returns NULL exactly when every page is full and malloc fails; otherwise it takes one
    * item that was not in use, and after one get_page it never needs a second.
    */
  lemma AllocKeeps(s: State, m: Malloc)
    requires Inv(s) && MallocSound(s, m)
    ensures if s.allocPages == [] && m.Failed? then ZAlloc(s, m) == NoMemory else ZAlloc(s, m).Took?
    ensures ZAlloc(s, m).Took? ==>
      var s', h := ZAlloc(s, m).state, ZAlloc(s, m).head;
      h !in Live(s) && Live(s') == Live(s) + {h} && Inv(s')
  {
    hide Inner, Live, TakeFirst, GetPage;
    if s.allocPages != [] {
      TakeFirstKeeps(s);
    } else if m.Got? {
      GetPageKeeps(s, m.page, m.junk);
      TakeFirstKeeps(GetPage(s, m.page, m.junk));
    }
  }

  /** NULL means that there is no free item in any page. */
  lemma OutOfItems(s: State)
    requires Inv(s)
    ensures s.allocPages == [] <==> forall h :: h in s.items ==> s.items[h].used
  {
    hide Geometry, PagesApart, CountsOk, NoRepeats, Slotted, Carved;
    if s.allocPages == [] {
      forall h | h in s.items
        ensures s.items[h].used
      {
        var p := h - s.items[h].offset;
        assert p in s.fullPages && Listed(p, s.pages[p], s.items);
      }
    } else {
      var p := s.allocPages[0];
      assert p in s.allocPages && PageOk(s, p);
      FirstFree(s, p);
    }
  }

  /** ey_zfree tells items in use, free items and everything else apart, and never finds a tail overwritten. */
  lemma FreeExactly(s: State, h: Addr)
    requires Inv(s)
    ensures ZFree(s, h).Done? <==> h in Live(s)
    ensures ZFree(s, h).DoubleFree? <==> h in s.items && h !in Live(s)
    ensures ZFree(s, h).WildAccess? <==> h !in s.items
    ensures ZFree(s, h).Done? ==> Inv(ZFree(s, h).state) && Live(ZFree(s, h).state) == Live(s) - {h}
  {
    if h in s.items {
      ItemBack(s, h);
      var p := h - s.items[h].offset;
      FreeFinds(s, p, h);
      if h in Live(s) {
        hide Inv;
        if s.pages[p].freeCount + 1 == s.perPage {
          FreeGivesBack(s, p, h);
        } else {
          FreeReturns(s, p, h);
        }
      }
    }
  }

  lemma ItemBack(s: State, h: Addr)
    requires ItemsInPages(s) && h in s.items
    ensures h >= s.items[h].offset
  {
  }

  // ----- live items and their memory -----

  /** Payloads of items in use do not meet each other, nor any header or tail, and lie in the page HEAD2PAGE gives. */
  lemma PayloadsApart(s: State, h: Addr, k: Addr)
    requires Inv(s) && h in Live(s) && k in s.items && h != k
    ensures h + HEAD + s.realSize <= k || k + HEAD + s.realSize + TAIL <= h + HEAD
    ensures TailOf(s.realSize, h) == h + HEAD + s.realSize
    ensures var p := h - s.items[h].offset;
            p in s.pages && p + PAGE_HEAD + HEAD <= h + HEAD && h + HEAD + s.realSize + TAIL <= p + PAGE_SIZE
  {
    hide Geometry, PagesApart, ItemsInPages;
    FootprintsApart(s, h, k);
    FootprintInside(s, h);
  }

  /** While fewer than 2^32 items are in use the counters are exact. */
  lemma CountersExact(s: State)
    requires Inv(s) && |Live(s)| < UINT && |s.pages| < UINT
    ensures s.allocItemCount == |Live(s)| == UsedIn(s, s.fullPages) + UsedIn(s, s.allocPages)
    ensures s.pageCount == |s.fullPages| + |s.allocPages|
  {
    hide Live, UsedIn;
  }

  // ----- runs -----

  datatype Request = Alloc(malloc: Malloc) | Free(head: Addr)

  /** The slab, and what the client holds by the answers it was given; Crashed also when an item is handed out twice. */
  datatype Session = Open(slab: State, held: set<Addr>) | Crashed

  function Serve(c: Session, r: Request): Session {
    match c
    case Crashed => Crashed
    case Open(s, held) =>
      match r
      case Alloc(m) => (
        match ZAlloc(s, m)
        case NoMemory => c
        case Took(s', h) => if h in held then Crashed else Open(s', held + {h})
        case _ => Crashed)
      case Free(h) =>
        match ZFree(s, h)
        case Done(s') => Open(s', held - {h})
        case _ => Crashed
  }

  function ServeAll(c: Session, rs: seq<Request>): Session
    decreases |rs|
  {
    if rs == [] then c else ServeAll(Serve(c, rs[0]), rs[1..])
  }

  /** The client frees only what it holds, and malloc hands out memory of its own. */
  ghost predicate Legal(c: Session, rs: seq<Request>)
    decreases |rs|
  {
    rs == [] || c.Crashed? ||
    ((match rs[0]
      case Alloc(m) => MallocSound(c.slab, m)
      case Free(h) => h in c.held) &&
     Legal(Serve(c, rs[0]), rs[1..]))
  }

  ghost predicate SessionOk(c: Session) {
    c.Open? && Inv(c.slab) && c.held == Live(c.slab)
  }

  lemma ServeKeeps(c: Session, r: Request)
    requires SessionOk(c)
    requires match r case Alloc(m) => MallocSound(c.slab, m) case Free(h) => h in c.held
    ensures SessionOk(Serve(c, r))
  {
    hide Inv, Live, ZAlloc, ZFree, MallocSound;
    match r
    case Alloc(m) => AllocKeeps(c.slab, m);
    case Free(h) => FreeExactly(c.slab, h);
  }

  /** No legal run crashes or hands out an item that is held, and what the client holds is what the slab has in use. */
  lemma {:induction false} LegalRunsAreSafe(c: Session, rs: seq<Request>)
    requires SessionOk(c) && Legal(c, rs)
    ensures SessionOk(ServeAll(c, rs))
    decreases |rs|
  {
    hide SessionOk, Serve;
    if rs != [] {
      assert c.Open? by {
        SessionOpen(c);
      }
      ServeKeeps(c, rs[0]);
      LegalRunsAreSafe(Serve(c, rs[0]), rs[1..]);
    }
  }

  lemma SessionOpen(c: Session)
    requires SessionOk(c)
    ensures c.Open?
  {
  }

  lemma RunsFromInit(size: int, rs: seq<Request>)
    requires 1 <= size <= 992
    requires ZInit(size).Some? && Legal(Open(ZInit(size).value, {}), rs)
    ensures SessionOk(ServeAll(Open(ZInit(size).value, {}), rs))
  {
    InitKeeps(size);
    LegalRunsAreSafe(Open(ZInit(size).value, {}), rs);
  }

  // ----- ey_zclear -----

  ghost predicate Outside(l: seq<Addr>, h: Addr) {
    forall p :: p in l ==> !(p <= h < p + PAGE_SIZE)
  }

  lemma OutsideStep(l: seq<Addr>, h: Addr)
    requires l != []
    ensures Outside(l, h) <==> !(l[0] <= h < l[0] + PAGE_SIZE) && Outside(l[1..], h)
  {
    var rest := l[1..];
    assert l == [l[0]] + rest;
    if Outside(l, h) {
      assert l[0] in l;
      assert forall p :: p in rest ==> p in l;
    }
  }

  lemma {:induction false} UnmapAllDoes(s: State, l: seq<Addr>)
    ensures var r := UnmapAll(s, l);
            && r.pages.Keys == s.pages.Keys - Members(l)
            && (forall h :: h in r.items <==> h in s.items && Outside(l, h))
            && r.realSize == s.realSize && r.perPage == s.perPage
    decreases |l|
  {
    if l != [] {
      UnmapAllDoes(Unmap(s, l[0]), l[1..]);
      assert l == [l[0]] + l[1..];
      forall h: Addr
        ensures Outside(l, h) <==> !(l[0] <= h < l[0] + PAGE_SIZE) && Outside(l[1..], h)
      {
        OutsideStep(l, h);
      }
    }
  }

  /** Clearing gives every page back: the slab is as ey_zinit left it. */
  lemma ClearForgets(s: State)
    requires Inv(s)
    ensures Inv(ZClear(s)) && Live(ZClear(s)) == {}
    ensures ZClear(s).pages == map[] && ZClear(s).items == map[]
  {
    hide UnmapAll, NoRepeats, PagesApart, PagesOk, UsedIn, Slotted;
    var r := ZClear(s);
    UnmapAllDoes(s, s.fullPages);
    UnmapAllDoes(UnmapAll(s, s.fullPages), s.allocPages);
    assert r.pages.Keys == {};
    forall h | h in s.items
      ensures h !in r.items
    {
      HomeOf(s, h);
    }
    assert r.items.Keys == {};
    ClearedInv(r);
  }

  lemma ClearedInv(r: State)
    requires Geometry(r.realSize, r.perPage) && r.pages.Keys == {} && r.items.Keys == {}
    requires r.fullPages == [] && r.allocPages == [] && r.pageCount == 0 && r.allocItemCount == 0
    ensures r.pages == map[] && r.items == map[] && Live(r) == {} && Inv(r)
  {
    hide Geometry;
    assert r.pages == map[] && r.items == map[] && Live(r) == {};
  }
}
