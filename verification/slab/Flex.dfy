// The flexible slab of ey_fslab.c: small blocks come from a slab, large ones from malloc, and the
// header of a block, in front of the user's memory, says how large it is.
module Flex {
  import opened Wrappers
  import opened Slab
  import opened SlabInvariant
  import opened SlabSteps
  import opened SlabMoves
  import opened SlabRuns

  /** sizeof(fslab_head_t) and the range of size_t. */
  const FLEX_HEAD: nat := 24
  const SIZE_T: nat := 0x1_0000_0000_0000_0000

  /** `sizes` is the user_size in the header at each block's address. */
  datatype Flex = Flex(slab: Option<State>, mallocList: seq<Addr>, sizes: map<Addr, nat>)

  /** size + sizeof(fslab_head_t), in 64 bits. */
  function Real(size: nat): nat {
    (size + FLEX_HEAD) % SIZE_T
  }

  /** ey_fzalloc asks malloc. */
  predicate AllocLarge(slab: Option<State>, size: nat) {
    slab.None? || Real(size) > slab.value.realSize
  }

  /** ey_fzfree takes the block for one of malloc's. */
  predicate FreeLarge(slab: Option<State>, size: nat) {
    slab.None? || Real(size) >= slab.value.realSize
  }

  /** The size at which the two tests disagree is not the block's. */
  predicate Balanced(slab: Option<State>, size: nat) {
    slab.None? || Real(size) != slab.value.realSize
  }

  datatype FlexAllocated = Block(z: Flex, head: Addr) | Null | SlabCrash

  /** ey_fzalloc: `large` is malloc's answer for a large block, `page` its answer when the slab needs a page. */
  function FzAlloc(z: Flex, size: nat, large: Option<Addr>, page: Malloc): FlexAllocated {
    if AllocLarge(z.slab, size) then
      match large
      case None => Null
      case Some(a) => Block(z.(mallocList := [a] + z.mallocList, sizes := z.sizes[a := size]), a)
    else
      match ZAlloc(z.slab.value, page)
      case Took(s, h) => Block(z.(slab := Some(s), sizes := z.sizes[h + HEAD := size]), h + HEAD)
      case NoMemory => Null
      case _ => SlabCrash
  }

  datatype FlexFreed = Gone(z: Flex) | NotOnList | SlabRefuses | NoHeader

  /** ey_fzfree of the block whose header is at f. */
  function FzFree(z: Flex, f: Addr): FlexFreed {
    if f !in z.sizes then NoHeader
    else if FreeLarge(z.slab, z.sizes[f]) then
      if f in z.mallocList then Gone(z.(mallocList := Remove(z.mallocList, f), sizes := z.sizes - {f}))
      else NotOnList
    else if f < HEAD then SlabRefuses
    else
      match ZFree(z.slab.value, f - HEAD)
      case Done(s) => Gone(z.(slab := Some(s), sizes := z.sizes - {f}))
      case _ => SlabRefuses
  }

  /** ey_fzinit; a slab whose size ey_zinit refuses is left out, and every block is then a large one. */
  function FzInit(size: int): Option<Flex>
    requires -0x8000_0000 <= size < 0x8000_0000
  {
    if size < 0 || Int32(size + FLEX_HEAD) <= 0 then None
    else Some(Flex(if size == 0 then None else ZInit(Int32(size + FLEX_HEAD)), [], map[]))
  }

  // ----- what every call keeps -----

  ghost predicate FromSlab(slab: Option<State>, f: Addr) {
    slab.Some? && f >= HEAD && (f - HEAD) in Live(slab.value)
  }

  ghost predicate InPage(slab: Option<State>, a: Addr) {
    slab.Some? && exists p :: p in slab.value.pages && p <= a < p + PAGE_SIZE
  }

  /**
    * malloc_list holds exactly the large blocks, the slab's items in use are the others, and
    * headers tell them apart.
    */
  ghost predicate FlexInv(z: Flex) {
    && (z.slab.Some? ==> Inv(z.slab.value))
    && NoRepeats(z.mallocList)
    && (forall f :: f in z.sizes <==> f in z.mallocList || FromSlab(z.slab, f))
    && (forall f :: f in z.mallocList ==> !InPage(z.slab, f) && AllocLarge(z.slab, z.sizes[f]))
    && (forall f :: FromSlab(z.slab, f) ==> f in z.sizes && !AllocLarge(z.slab, z.sizes[f]))
  }

  /** Memory from malloc lies in no page and holds no other block. */
  ghost predicate Fresh(z: Flex, large: Option<Addr>, page: Malloc) {
    && (large.Some? ==> large.value !in z.sizes && !InPage(z.slab, large.value))
    && (page.Got? ==>
          && (z.slab.Some? ==> FreshPage(z.slab.value, page.page))
          && forall f :: f in z.mallocList ==> !(page.page <= f < page.page + PAGE_SIZE))
  }

  lemma FzInitKeeps(size: int)
    requires 0 <= size <= 992 - FLEX_HEAD
    ensures FzInit(size).Some? && FlexInv(FzInit(size).value) && FzInit(size).value.sizes == map[]
    ensures FzInit(size).value.slab.None? <==> size == 0
  {
    SmallInt(size + FLEX_HEAD);
    if size > 0 {
      InitKeeps(size + FLEX_HEAD);
    }
  }

  /** ey_fzinit refuses exactly what is negative or overflows with the header; what ey_zinit refuses has no slab. */
  lemma FzInitExactly(size: int)
    requires -0x8000_0000 <= size < 0x8000_0000
    ensures FzInit(size).None? <==> size < 0 || size + FLEX_HEAD >= 0x8000_0000
    ensures FzInit(size).Some? ==>
      var z := FzInit(size).value;
      z.mallocList == [] && z.sizes == map[] && (z.slab.None? <==> size == 0 || !Accepts(size + FLEX_HEAD))
  {
    hide Accepts;
  }

  lemma SlabBlockInPage(z: Flex, f: Addr)
    requires z.slab.Some? && Inv(z.slab.value) && FromSlab(z.slab, f)
    ensures InPage(z.slab, f)
  {
    hide Inv;
    LiveInPage(z.slab.value, f - HEAD);
  }

  lemma LiveInPage(s: State, h: Addr)
    requires Inv(s) && h in Live(s)
    ensures exists p :: p in s.pages && p <= h + HEAD < p + PAGE_SIZE
  {
    hide PagesApart, PagesOk, ListsOk, CountsOk, NoEmptyPage, Slotted;
    ItemBack(s, h);
    var p := h - s.items[h].offset;
    FootprintInside(s, h);
    assert p <= h + HEAD < p + PAGE_SIZE;
  }

  /** The pages after ey_zalloc: those of before, and at most the one malloc gave. */
  lemma PagesAfterAlloc(s: State, m: Malloc, q: Addr)
    requires Inv(s) && MallocSound(s, m) && ZAlloc(s, m).Took? && q in ZAlloc(s, m).state.pages
    ensures q in s.pages || (m.Got? && q == m.page)
    ensures ZAlloc(s, m).state.realSize == s.realSize
  {
    if s.allocPages == [] {
      GetPageShape(s, m.page, m.junk);
    }
  }

  lemma PagesAfterFree(s: State, h: Addr)
    requires ZFree(s, h).Done?
    ensures ZFree(s, h).state.realSize == s.realSize
    ensures forall q :: q in ZFree(s, h).state.pages ==> q in s.pages
  {
  }

  ghost predicate Grown(z: Flex, z': Flex, f: Addr) {
    f !in z.sizes && z'.sizes.Keys == z.sizes.Keys + {f}
  }

  /** ey_fzalloc hands out a block that was not in use, and keeps the two kinds apart. */
  lemma FzAllocKeeps(z: Flex, size: nat, large: Option<Addr>, page: Malloc)
    requires FlexInv(z) && Fresh(z, large, page)
    ensures var r := FzAlloc(z, size, large, page);
            && !r.SlabCrash?
            && (r.Block? ==> Grown(z, r.z, r.head) && r.z.sizes == z.sizes[r.head := size] && FlexInv(r.z))
            && (r.Block? ==> (r.head in r.z.mallocList <==> AllocLarge(z.slab, size)))
  {
    hide Inv, Live, ZAlloc, MallocSound;
    if AllocLarge(z.slab, size) {
      if large.Some? {
        LargeAllocKeeps(z, size, large.value);
      }
    } else {
      SmallAllocKeeps(z, size, page);
    }
  }

  lemma LargeAllocKeeps(z: Flex, size: nat, a: Addr)
    requires FlexInv(z) && AllocLarge(z.slab, size) && a !in z.sizes && !InPage(z.slab, a)
    ensures FlexInv(z.(mallocList := [a] + z.mallocList, sizes := z.sizes[a := size]))
  {
    hide Inv, InPage, FromSlab;
  }

  lemma SmallAllocKeeps(z: Flex, size: nat, m: Malloc)
    requires FlexInv(z) && !AllocLarge(z.slab, size) && Fresh(z, None, m)
    ensures ZAlloc(z.slab.value, m).Took? || ZAlloc(z.slab.value, m) == NoMemory
    ensures ZAlloc(z.slab.value, m).Took? ==>
      var s', f := ZAlloc(z.slab.value, m).state, ZAlloc(z.slab.value, m).head + HEAD;
      f !in z.sizes && f !in z.mallocList && FlexInv(z.(slab := Some(s'), sizes := z.sizes[f := size]))
  {
    hide Inv, ZAlloc;
    var s := z.slab.value;
    AllocKeeps(s, m);
    if ZAlloc(s, m).Took? {
      var s', h := ZAlloc(s, m).state, ZAlloc(s, m).head;
      var z' := z.(slab := Some(s'), sizes := z.sizes[h + HEAD := size]);
      TookItemDone(s, m, s', h);
      TakenBlock(z, z', m, h);
    }
  }

  /** What the slab becomes when ey_zalloc takes the item at h. */
  ghost predicate TookItem(s: State, s': State, m: Malloc, h: Addr) {
    && Inv(s) && Inv(s')
    && h !in Live(s) && Live(s') == Live(s) + {h}
    && s'.realSize == s.realSize
    && (forall q :: q in s'.pages ==> q in s.pages || (m.Got? && q == m.page))
  }

  lemma TookItemDone(s: State, m: Malloc, s': State, h: Addr)
    requires Inv(s) && MallocSound(s, m) && ZAlloc(s, m) == Took(s', h)
    ensures TookItem(s, s', m, h)
  {
    AllocKeeps(s, m);
    hide Inv, ZAlloc, Live, MallocSound;
    forall q | q in s'.pages
      ensures q in s.pages || (m.Got? && q == m.page)
    {
      PagesAfterAlloc(s, m, q);
    }
    SameRealSize(s, m);
  }

  lemma NewInPage(z: Flex, z': Flex, m: Malloc, h: Addr, f: Addr)
    requires FlexInv(z) && Fresh(z, None, m) && z.slab.Some? && z'.slab.Some? &&
             TookItem(z.slab.value, z'.slab.value, m, h)
    requires f in z.mallocList
    ensures !InPage(z'.slab, f)
  {
    hide Inv, Live;
  }

  lemma NewFromSlab(z: Flex, z': Flex, m: Malloc, h: Addr)
    requires z.slab.Some? && z'.slab.Some? && TookItem(z.slab.value, z'.slab.value, m, h)
    ensures forall f :: FromSlab(z'.slab, f) <==> FromSlab(z.slab, f) || f == h + HEAD
    ensures !FromSlab(z.slab, h + HEAD)
  {
    hide Inv, Live;
  }

  lemma TakenBlock(z: Flex, z': Flex, m: Malloc, h: Addr)
    requires FlexInv(z) && Fresh(z, None, m)
    requires z.slab.Some? && z'.slab.Some? && TookItem(z.slab.value, z'.slab.value, m, h)
    requires z'.mallocList == z.mallocList
    requires z'.sizes.Keys == z.sizes.Keys + {h + HEAD}
    requires forall f :: f in z.sizes && f != h + HEAD ==> z'.sizes[f] == z.sizes[f]
    requires !AllocLarge(z.slab, z'.sizes[h + HEAD])
    ensures h + HEAD !in z.sizes && h + HEAD !in z.mallocList && FlexInv(z')
  {
    hide Inv, Live, FromSlab, InPage, Fresh;
    NewFromSlab(z, z', m, h);
    SlabBlockInPage(z', h + HEAD);
    forall f | f in z.mallocList
      ensures !InPage(z'.slab, f)
    {
      NewInPage(z, z', m, h, f);
    }
  }

  lemma SameRealSize(s: State, m: Malloc)
    requires Inv(s) && MallocSound(s, m) && ZAlloc(s, m).Took?
    ensures ZAlloc(s, m).state.realSize == s.realSize
  {
    if s.allocPages == [] {
      GetPageShape(s, m.page, m.junk);
    }
  }

  /**
    * ey_fzfree returns a block to where it came from exactly when its size is balanced; at the one
    * size where the tests disagree, a slab item is unlinked from malloc_list, where it is not.
    */
  lemma FzFreeExactly(z: Flex, f: Addr)
    requires FlexInv(z) && f in z.sizes
    ensures FzFree(z, f).Gone? <==> Balanced(z.slab, z.sizes[f])
    ensures !Balanced(z.slab, z.sizes[f]) ==> FzFree(z, f) == NotOnList && FromSlab(z.slab, f)
    ensures Balanced(z.slab, z.sizes[f]) ==>
      var z' := FzFree(z, f).z;
      && FlexInv(z') && z'.sizes == z.sizes - {f}
      && (if f in z.mallocList then z'.slab == z.slab && z'.mallocList == Remove(z.mallocList, f)
          else z'.mallocList == z.mallocList && z.slab.Some? && z'.slab.Some? &&
               Live(z'.slab.value) == Live(z.slab.value) - {f - HEAD})
  {
    hide Inv, Live, ZFree, InPage;
    if f in z.mallocList {
      RemoveDoes(z.mallocList, f);
      LargeFreeKeeps(z, f);
    } else {
      assert FromSlab(z.slab, f);
      FreeExactly(z.slab.value, f - HEAD);
      if Balanced(z.slab, z.sizes[f]) {
        SmallFreeKeeps(z, f);
      }
    }
  }

  lemma LargeFreeKeeps(z: Flex, f: Addr)
    requires FlexInv(z) && f in z.mallocList
    ensures FlexInv(z.(mallocList := Remove(z.mallocList, f), sizes := z.sizes - {f}))
  {
    hide Inv, Live;
    RemoveDoes(z.mallocList, f);
    var z' := z.(mallocList := Remove(z.mallocList, f), sizes := z.sizes - {f});
    forall g
      ensures FromSlab(z'.slab, g) <==> FromSlab(z.slab, g)
      ensures InPage(z'.slab, g) <==> InPage(z.slab, g)
      ensures FromSlab(z.slab, g) ==> InPage(z.slab, g)
    {
      if FromSlab(z.slab, g) {
        SlabBlockInPage(z, g);
      }
    }
  }

  lemma SmallFreeKeeps(z: Flex, f: Addr)
    requires FlexInv(z) && FromSlab(z.slab, f) && f in z.sizes && f !in z.mallocList
    requires ZFree(z.slab.value, f - HEAD).Done?
    ensures FlexInv(z.(slab := Some(ZFree(z.slab.value, f - HEAD).state), sizes := z.sizes - {f}))
  {
    hide Inv, ZFree, Live;
    var s := z.slab.value;
    FreeExactly(s, f - HEAD);
    PagesAfterFree(s, f - HEAD);
    var z' := z.(slab := Some(ZFree(s, f - HEAD).state), sizes := z.sizes - {f});
    forall g
      ensures FromSlab(z'.slab, g) <==> FromSlab(z.slab, g) && g != f
      ensures InPage(z'.slab, g) ==> InPage(z.slab, g)
    {
    }
  }

  /** A block, large or the slab's, has room for what was asked for exactly when the sum with the header fits. */
  lemma RoomExactly(z: Flex, size: nat)
    requires FlexInv(z) && size < SIZE_T
    ensures var room := (if AllocLarge(z.slab, size) then Real(size) else z.slab.value.realSize) - FLEX_HEAD;
            size <= room <==> size + FLEX_HEAD < SIZE_T
  {
    hide PagesApart, PagesOk, ListsOk, CountsOk, NoEmptyPage, Slotted, FromSlab, InPage, NoRepeats;
    if size + FLEX_HEAD >= SIZE_T {
      ModOf(1, size + FLEX_HEAD - SIZE_T);
    } else {
      ModOf(0, size + FLEX_HEAD);
    }
  }

  lemma ModOf(q: nat, r: nat)
    requires r < SIZE_T
    ensures (q * SIZE_T + r) % SIZE_T == r
  {
  }

  /** The request whose sum with the header is the slab's item size. */
  function Unbalanced(z: Flex): int
    requires z.slab.Some?
  {
    z.slab.value.realSize - FLEX_HEAD
  }

  /** The block of that size is allocated, and its release fails. */
  ghost predicate ReleaseFails(z: Flex, page: Addr, junk: Addr)
    requires z.slab.Some? && Unbalanced(z) >= 0
  {
    var r := FzAlloc(z, Unbalanced(z), None, Got(page, junk));
    r.Block? && FlexInv(r.z) && FzFree(r.z, r.head) == NotOnList
  }

  /** In every new flexible slab with a slab inside, one allocation reaches the size at which the release fails. */
  lemma UnbalancedReached(size: int, z: Flex, page: Addr, junk: Addr)
    requires 1 <= size <= 992 - FLEX_HEAD && FzInit(size) == Some(z)
    ensures z.slab.Some? && Unbalanced(z) >= size && ReleaseFails(z, page, junk)
  {
    hide Inv, Live, ZAlloc, ZFree, ZInit, RealSize, Accepts, Int32;
    FzInitKeeps(size);
    SmallInt(size + FLEX_HEAD);
    NewSlab(size + FLEX_HEAD);
    var s, m := z.slab.value, Got(page, junk);
    ModOf(0, s.realSize);
    AllocKeeps(s, m);
    FzAllocKeeps(z, Unbalanced(z), None, m);
    SameRealSize(s, m);
    FzFreeExactly(FzAlloc(z, Unbalanced(z), None, m).z, FzAlloc(z, Unbalanced(z), None, m).head);
  }

  lemma NewSlab(size: int)
    requires 1 <= size <= 992
    ensures ZInit(size).Some?
    ensures ZInit(size).value.pages == map[] && ZInit(size).value.allocPages == []
    ensures size <= ZInit(size).value.realSize < size + MEM_ROUNDING
  {
    hide Int32;
    AcceptedFits(size);
    RoundsUp(size);
  }

  // ----- runs -----

  datatype FlexRequest = Want(size: nat, large: Option<Addr>, page: Malloc) | Drop(head: Addr)

  datatype FlexSession = Serving(z: Flex, held: set<Addr>) | Broken

  function FlexServe(c: FlexSession, r: FlexRequest): FlexSession {
    match c
    case Broken => Broken
    case Serving(z, held) =>
      match r
      case Want(size, large, page) => (
        match FzAlloc(z, size, large, page)
        case Null => c
        case Block(z', f) => if f in held then Broken else Serving(z', held + {f})
        case SlabCrash => Broken)
      case Drop(f) =>
        match FzFree(z, f)
        case Gone(z') => Serving(z', held - {f})
        case _ => Broken
  }

  function FlexServeAll(c: FlexSession, rs: seq<FlexRequest>): FlexSession
    decreases |rs|
  {
    if rs == [] then c else FlexServeAll(FlexServe(c, rs[0]), rs[1..])
  }

  /** The client frees what it holds, malloc is sound, and no request is for the unbalanced size. */
  ghost predicate FlexLegal(c: FlexSession, rs: seq<FlexRequest>)
    decreases |rs|
  {
    rs == [] || c.Broken? ||
    ((match rs[0]
      case Want(size, large, page) => Balanced(c.z.slab, size) && Fresh(c.z, large, page)
      case Drop(f) => f in c.held) &&
     FlexLegal(FlexServe(c, rs[0]), rs[1..]))
  }

  ghost predicate FlexOk(c: FlexSession) {
    && c.Serving? && FlexInv(c.z) && c.held == c.z.sizes.Keys
    && (forall f :: f in c.z.sizes ==> Balanced(c.z.slab, c.z.sizes[f]))
  }

  lemma SameSlabSize(z: Flex, size: nat, large: Option<Addr>, page: Malloc)
    requires FlexInv(z) && Fresh(z, large, page) && FzAlloc(z, size, large, page).Block?
    ensures forall n :: Balanced(FzAlloc(z, size, large, page).z.slab, n) <==> Balanced(z.slab, n)
  {
    hide Inv, Live, ZAlloc;
    if !AllocLarge(z.slab, size) {
      AllocKeeps(z.slab.value, page);
      SameRealSize(z.slab.value, page);
    }
  }

  lemma SameSlabSizeAfterFree(z: Flex, f: Addr)
    requires FzFree(z, f).Gone?
    ensures forall n :: Balanced(FzFree(z, f).z.slab, n) <==> Balanced(z.slab, n)
  {
    hide ZFree;
    if !FreeLarge(z.slab, z.sizes[f]) {
      PagesAfterFree(z.slab.value, f - HEAD);
    }
  }

  lemma FlexServeKeeps(c: FlexSession, r: FlexRequest)
    requires FlexOk(c)
    requires match r
             case Want(size, large, page) => Balanced(c.z.slab, size) && Fresh(c.z, large, page)
             case Drop(f) => f in c.held
    ensures FlexOk(FlexServe(c, r))
  {
    hide FlexInv, FzAlloc, FzFree, Fresh;
    match r
    case Want(size, large, page) =>
      FzAllocKeeps(c.z, size, large, page);
      if FzAlloc(c.z, size, large, page).Block? {
        SameSlabSize(c.z, size, large, page);
      }
    case Drop(f) =>
      FzFreeExactly(c.z, f);
      SameSlabSizeAfterFree(c.z, f);
  }

  /** Over every run without requests of the unbalanced size, each block goes back to where it came from. */
  lemma {:induction false} FlexRunsAreSafe(c: FlexSession, rs: seq<FlexRequest>)
    requires FlexOk(c) && FlexLegal(c, rs)
    ensures FlexOk(FlexServeAll(c, rs))
    decreases |rs|
  {
    hide FlexServe, FlexInv, Fresh, Balanced;
    if rs != [] {
      FlexServeKeeps(c, rs[0]);
      FlexRunsAreSafe(FlexServe(c, rs[0]), rs[1..]);
    }
  }
}
