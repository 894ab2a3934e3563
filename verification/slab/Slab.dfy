// The slab allocator of ey_slab.c on 64-bit addresses: pages of equal items, each page with an
// intrusive list of its free items, and the pages kept on a full list and an alloc list.
module Slab {
  import opened Wrappers

  type Addr = nat

  const PAGE_SIZE: nat := 4096
  const MIN_PAGE_ITEMS: nat := 4
  const MEM_ROUNDING: nat := 8
  const MAGIC: nat := 0xdead_dead_dead_dead
  /** sizeof(slab_item_head_t), sizeof(slab_item_tail_t) and sizeof(slab_page_t). */
  const HEAD: nat := 16
  const TAIL: nat := 8
  const PAGE_HEAD: nat := 32
  const UINT: nat := 0x1_0000_0000

  /**
    * An item's header; `used` is the ITEM_ALLOCTED bit of its flag. `link` is meaningful only while
    * the item is among the first free_count of its page's list.
    */
  datatype Item = Item(offset: nat, used: bool, link: Addr)

  datatype Page = Page(freeCount: nat, freeItem: Addr)

  /** The fields of ey_slab, and the memory its pages occupy: page headers, item headers and item tails by address. */
  datatype State = State(
    fullPages: seq<Addr>,
    allocPages: seq<Addr>,
    pageCount: nat,
    allocItemCount: nat,
    realSize: nat,
    perPage: nat,
    pages: map<Addr, Page>,
    items: map<Addr, Item>,
    magics: map<Addr, nat>
  )

  /** The bytes from one item's header to the next. */
  function Stride(realSize: nat): nat {
    HEAD + realSize + TAIL
  }

  /** Where in its page the header at index i stands. */
  function Offset(realSize: nat, i: nat): nat {
    PAGE_HEAD + i * Stride(realSize)
  }

  /** The tail of the item whose header is at h. */
  function TailOf(realSize: nat, h: Addr): Addr {
    h + HEAD + realSize
  }

  /** An unsigned int, after wrap-around. */
  function Wrap(n: int): nat {
    n % UINT
  }

  // ----- ey_zinit -----

  function RealSize(size: nat): nat {
    (size + MEM_ROUNDING - 1) / MEM_ROUNDING * MEM_ROUNDING
  }

  /** A C int after two's-complement wrap-around. */
  function Int32(x: int): int {
    (x + 0x8000_0000) % UINT - 0x8000_0000
  }

  /** The test of ey_zinit, whose product is an int before it is widened to 64 bits. */
  predicate Accepts(size: int) {
    size > 0 &&
    var body := Int32(RealSize(size));
    var total := Int32(body + HEAD + TAIL);
    body > 0 && (Int32(total * MIN_PAGE_ITEMS) + PAGE_HEAD) % 0x1_0000_0000_0000_0000 <= PAGE_SIZE
  }

  function ZInit(size: int): Option<State>
    requires -0x8000_0000 <= size < 0x8000_0000
  {
    if Accepts(size) then
      var body := RealSize(size);
      Some(State([], [], 0, 0, body % 0x1_0000, (PAGE_SIZE - PAGE_HEAD) / (body + HEAD + TAIL) % 0x1_0000,
                 map[], map[], map[]))
    else None
  }

  // ----- get_page -----

  /** One round of get_page's loop: the item at h is laid out and put at the head of the page's list. */
  function CarveItem(c: State, p: Addr, h: Addr): State
    requires p in c.pages && h >= p
  {
    c.(items := c.items[h := Item((h - p) % 0x1_0000, false, c.pages[p].freeItem)],
       magics := c.magics[TailOf(c.realSize, h) := MAGIC],
       pages := c.pages[p := Page(0, h)])
  }

  /** Page p after k rounds; the head of its list held `junk` before. */
  function Carve(s: State, p: Addr, junk: Addr, k: nat): (r: State)
    ensures p in r.pages
    decreases k
  {
    if k == 0 then s.(pages := s.pages[p := Page(0, junk)])
    else CarveItem(Carve(s, p, junk, k - 1), p, p + Offset(s.realSize, k - 1))
  }

  function GetPage(s: State, p: Addr, junk: Addr): State {
    var c := Carve(s, p, junk, s.perPage);
    c.(pages := c.pages[p := Page(s.perPage, c.pages[p].freeItem)],
       pageCount := Wrap(s.pageCount + 1),
       allocPages := [p] + s.allocPages)
  }

  // ----- ey_zalloc -----

  datatype Allocated =
    | Took(state: State, head: Addr)
    | NoMemory
    | AlreadyAllocated
    | WildRead

  /** What malloc answers a request for a page: nothing, or an address and what its memory holds. */
  datatype Malloc = Failed | Got(page: Addr, junk: Addr)

  /** ey_zalloc from the label `retry` on, when the alloc list is not empty. */
  function TakeFirst(s: State): Allocated
    requires s.allocPages != []
  {
    var p := s.allocPages[0];
    if p !in s.pages || s.pages[p].freeItem !in s.items then WildRead
    else
      var h := s.pages[p].freeItem;
      if s.items[h].used then AlreadyAllocated
      else
        var left := (s.pages[p].freeCount + 0xFFFF) % 0x1_0000;
        Took(
          s.(pages := s.pages[p := Page(left, s.items[h].link)],
             items := s.items[h := s.items[h].(used := true)],
             allocItemCount := Wrap(s.allocItemCount + 1),
             allocPages := if left == 0 then s.allocPages[1..] else s.allocPages,
             fullPages := if left == 0 then [p] + s.fullPages else s.fullPages),
          h)
  }

  function ZAlloc(s: State, m: Malloc): Allocated {
    if s.allocPages != [] then TakeFirst(s)
    else
      match m
      case Failed => NoMemory
      case Got(p, junk) => TakeFirst(GetPage(s, p, junk))
  }

  // ----- ey_zfree -----

  datatype Freed =
    | Done(state: State)
    | Overwritten
    | DoubleFree
    | WildAccess

  function Remove(l: seq<Addr>, p: Addr): seq<Addr> {
    if l == [] then []
    else if l[0] == p then l[1..]
    else [l[0]] + Remove(l[1..], p)
  }

  /** free(page): the page and everything inside it are gone. */
  function Unmap(s: State, p: Addr): State {
    s.(pages := s.pages - {p},
       items := map h | h in s.items && !(p <= h < p + PAGE_SIZE) :: s.items[h],
       magics := map h | h in s.magics && !(p <= h < p + PAGE_SIZE) :: s.magics[h])
  }

  /** The item goes back to the head of its page's list; a full page moves to the end of the alloc list. */
  function PutBack(s: State, p: Addr, h: Addr): State
    requires p in s.pages && h in s.items
  {
    var c := (s.pages[p].freeCount + 1) % 0x1_0000;
    s.(items := s.items[h := s.items[h].(used := false, link := s.pages[p].freeItem)],
       pages := s.pages[p := Page(c, h)],
       allocItemCount := Wrap(s.allocItemCount - 1),
       fullPages := if c == 1 then Remove(s.fullPages, p) else s.fullPages,
       allocPages := if c == 1 then s.allocPages + [p] else s.allocPages)
  }

  /** The page goes back to malloc. */
  function GiveBack(s: State, p: Addr): State {
    Unmap(s, p).(allocItemCount := Wrap(s.allocItemCount - 1),
                 pageCount := Wrap(s.pageCount - 1),
                 allocPages := Remove(s.allocPages, p))
  }

  /** ey_zfree of the item whose header is at h. */
  function ZFree(s: State, h: Addr): Freed {
    if h !in s.items || h < s.items[h].offset || (h - s.items[h].offset) !in s.pages ||
      TailOf(s.realSize, h) !in s.magics then
      WildAccess
    else
      var p := h - s.items[h].offset;
      if s.magics[TailOf(s.realSize, h)] != MAGIC then Overwritten
      else if !s.items[h].used then DoubleFree
      else if s.pages[p].freeCount + 1 == s.perPage then
        if p in s.allocPages then Done(GiveBack(s, p)) else WildAccess
      else if (s.pages[p].freeCount + 1) % 0x1_0000 == 1 && p !in s.fullPages then WildAccess
      else Done(PutBack(s, p, h))
  }

  // ----- ey_zclear -----

  function UnmapAll(s: State, l: seq<Addr>): State
    decreases |l|
  {
    if l == [] then s else UnmapAll(Unmap(s, l[0]), l[1..])
  }

  function ZClear(s: State): State {
    UnmapAll(UnmapAll(s, s.fullPages), s.allocPages).(
      fullPages := [], allocPages := [], pageCount := 0, allocItemCount := 0)
  }
}
