// The flexible slab as ey_fslab.c keeps it, over the slab's own object.
module FlexZone {
  import opened Wrappers
  import opened Slab
  import opened SlabInvariant
  import opened SlabRuns
  import opened Flex
  import Zone

  class FlexZone {
    const slab: Zone.Zone?
    var mallocList: seq<Addr>
    var sizes: map<Addr, nat>

    ghost function Value(): Flex
      reads this, slab
    {
      Flex(if slab == null then None else Some(slab.Value()), mallocList, sizes)
    }

    constructor (slab: Zone.Zone?)
      requires slab != null ==> Inv(slab.Value()) && Live(slab.Value()) == {}
      ensures this.slab == slab
      ensures Value() == Flex(if slab == null then None else Some(slab.Value()), [], map[])
      ensures FlexInv(Value())
    {
      this.slab := slab;
      mallocList := [];
      sizes := map[];
    }

    /** A large block goes to the head of malloc_list. */
    method TakeLarge(size: nat, f: Addr)
      modifies this
      ensures Value() == old(Value()).(mallocList := [f] + old(mallocList), sizes := old(sizes)[f := size])
    {
      sizes := sizes[f := size];
      mallocList := [f] + mallocList;
    }

    /** A block from the slab. */
    method TakeSmall(size: nat, page: Malloc) returns (head: Option<Addr>)
      requires slab != null && Inv(slab.Value()) && MallocSound(slab.Value(), page)
      modifies this, slab
      ensures match ZAlloc(old(slab.Value()), page)
              case Took(s, h) =>
                && head == Some(h + HEAD)
                && Value() == old(Value()).(slab := Some(s), sizes := old(sizes)[h + HEAD := size])
              case _ => head == None && Value() == old(Value())
    {
      hide Inv, Live, ZAlloc, MallocSound;
      var h := slab.Alloc(page);
      if h.None? {
        return None;
      }
      sizes := sizes[h.value + HEAD := size];
      return Some(h.value + HEAD);
    }

    /** ey_fzalloc: the header of the block, or None. */
    method Alloc(size: nat, large: Option<Addr>, page: Malloc) returns (head: Option<Addr>)
      requires FlexInv(Value()) && Fresh(Value(), large, page)
      modifies this, slab
      ensures FlexInv(Value())
      ensures match FzAlloc(old(Value()), size, large, page)
              case Block(z, f) => head == Some(f) && Value() == z
              case _ => head == None && Value() == old(Value())
      ensures head.Some? ==> head.value !in old(sizes) && sizes == old(sizes)[head.value := size]
    {
      hide FlexInv, Fresh, Inv, ZAlloc;
      FzAllocKeeps(Value(), size, large, page);
      if slab == null || Real(size) > slab.realSize {
        head := large;
        if large.Some? {
          TakeLarge(size, large.value);
        }
      } else {
        SlabServes(Value(), large, page);
        head := TakeSmall(size, page);
      }
    }

    /** ey_fzfree of a block in use whose size is balanced, or of NULL. */
    method Free(item: Option<Addr>)
      requires FlexInv(Value())
      requires item.Some? ==> item.value in sizes && Balanced(Value().slab, sizes[item.value])
      modifies this, slab
      ensures FlexInv(Value())
      ensures item.None? ==> Value() == old(Value())
      ensures item.Some? ==> FzFree(old(Value()), item.value) == Gone(Value())
    {
      hide FlexInv, Inv, ZFree;
      if item.None? {
        return;
      }
      var f := item.value;
      FzFreeExactly(Value(), f);
      if slab == null || Real(sizes[f]) >= slab.realSize {
        mallocList := Remove(mallocList, f);
      } else {
        SlabFrees(Value(), f);
        slab.Free(Some(f - HEAD));
      }
      sizes := sizes - {f};
    }
  }

  lemma SlabServes(z: Flex, large: Option<Addr>, page: Malloc)
    requires FlexInv(z) && Fresh(z, large, page) && z.slab.Some?
    ensures Inv(z.slab.value) && MallocSound(z.slab.value, page)
    ensures ZAlloc(z.slab.value, page).Took? || ZAlloc(z.slab.value, page) == NoMemory
  {
    hide Inv, Live, ZAlloc;
    AllocKeeps(z.slab.value, page);
  }

  lemma SlabFrees(z: Flex, f: Addr)
    requires FlexInv(z) && f in z.sizes && !FreeLarge(z.slab, z.sizes[f])
    ensures Inv(z.slab.value) && f >= HEAD && (f - HEAD) in Live(z.slab.value)
  {
    hide Inv, Live;
  }
}
