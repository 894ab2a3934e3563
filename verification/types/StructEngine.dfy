// ey_type_set_struct_type as the source has it: one pass over the member list that writes each member in place.
module StructEngine {
  import opened Wrappers
  import opened Alignment
  import opened StructLayout
  import opened StructTheorems

  class Member {
    const field: Field
    var offset: int
    var bitStart: int
    var bits: nat

    constructor (field: Field)
      ensures this.field == field && bits == field.bits
    {
      this.field := field;
      offset, bitStart, bits := 0, 0, field.bits;
    }
  }

  function Fields(members: seq<Member>): (fs: seq<Field>)
    ensures |fs| == |members| && forall i :: 0 <= i < |fs| ==> fs[i] == members[i].field
  {
    seq(|members|, i requires 0 <= i < |members| => members[i].field)
  }

  /** The first k members hold what the loop wrote; the others what they held before. */
  twostate predicate Written(members: seq<Member>, slots: seq<Slot>, k: nat)
    reads members
    requires k <= |slots| && k <= |members|
  {
    && (forall i :: 0 <= i < k ==>
          members[i].offset == slots[i].offset && members[i].bitStart == slots[i].bitStart &&
          members[i].bits == slots[i].bits)
    && (forall i :: k <= i < |members| ==>
          members[i].offset == old(members[i].offset) && members[i].bitStart == old(members[i].bitStart) &&
          members[i].bits == old(members[i].bits))
  }

  class StructType {
    var members: seq<Member>
    var size: int
    var alignment: nat

    /** Lays the struct out, or says which member is refused and why. */
    method SetStructType() returns (fault: Option<(nat, Fault)>)
      requires WellTypedAll(Fields(members))
      requires forall i, j :: 0 <= i < j < |members| ==> members[i] != members[j]
      requires forall i :: 0 <= i < |members| ==> members[i].bits == members[i].field.bits
      modifies this`size, this`alignment, members
      ensures old(size) != 0 ==>
              fault == None && size == old(size) && alignment == old(alignment) && Written(members, [], 0)
      ensures old(size) == 0 ==>
        match LayOut(Fields(members))
        case Laid(s, a, slots) =>
          fault == None && size == s && alignment == a && |slots| == |members| && Written(members, slots, |members|)
        case Failed(i, why) =>
          && fault == Some((i, why)) && size == old(size) && alignment == old(alignment) && i < |members|
          && LayPrefix(Fields(members), i).Going? && Written(members, LayPrefix(Fields(members), i).slots, i)
    {
      hide Check, Place, WellTyped, LayPrefix;
      if size != 0 {
        return None;
      }
      ghost var fs := Fields(members);
      var c := Cursor(0, 0, 0, 0);
      ghost var slots: seq<Slot> := [];
      Unfold0(fs);
      var k := 0;
      while k < |members|
        invariant 0 <= k <= |members|
        invariant LayPrefix(fs, k) == Going(c, slots) && |slots| == k && CursorOk(c)
        invariant Written(members, slots, k)
        invariant size == old(size) && alignment == old(alignment)
      {
        Unfold(fs, k);
        var why := FaultOf(k);
        if why.Some? {
          Stays(fs, k, k + 1, why.value);
          Stays(fs, k, |fs|, why.value);
          return Some((k, why.value));
        }
        var placed := PlaceMember(c, members[k]);
        slots := slots + [Place(c, fs[k]).1];
        c, k := placed, k + 1;
      }
      size := AlignOffset(c.size, c.alignment);
      alignment := c.alignment;
      return None;
    }

    /** The tests of the loop's body. */
    method FaultOf(k: nat) returns (why: Option<Fault>)
      requires k < |members|
      ensures why == Check(Fields(members), k)
      ensures why.None? <==> Allowed(Fields(members), k) || Lenient(Fields(members), k)
    {
      CheckMeans(Fields(members), k);
      var f := members[k].field;
      if f.bits != 0 {
        if f.ty.kind != Integer {
          return Some(NotInteger);
        }
        if f.bits > f.ty.size * CHAR_BIT {
          return Some(TooWide);
        }
        return None;
      }
      if !Declared(f.ty) {
        if k + 1 < |members| {
          return Some(Undefined);
        }
        if !f.ty.kind.Array? {
          return Some(NotArray);
        }
        if !f.ty.kind.baseDeclared {
          return Some(BaseUndefined);
        }
      }
      if f.ty.kind.Function? {
        return Some(IsFunction);
      }
      return None;
    }
  }

  /** The part of the loop's body that moves the cursor and writes the member. */
  method PlaceMember(c: Cursor, m: Member) returns (c': Cursor)
    requires CursorOk(c)
    modifies m
    ensures c' == Place(c, m.field).0
    ensures Slot(m.offset, m.bitStart, m.bits) == Place(c, m.field).1
  {
    var offset, bitOffset := c.offset, c.bitOffset;
    var a := m.field.ty.alignment;
    if m.field.bits != 0 {
      var next :=
        if bitOffset != 0 then AlignOffset(offset + ((bitOffset - 1) / CHAR_BIT + 1), a) else AlignOffset(offset, a);
      if next * CHAR_BIT - (bitOffset + CHAR_BIT * offset) >= m.field.bits {
        bitOffset := bitOffset + (offset - next + a) * CHAR_BIT;
        offset := next - a;
      } else {
        offset, bitOffset := next, 0;
      }
      m.bitStart, m.offset, m.bits := bitOffset, offset, m.field.bits;
      bitOffset := bitOffset + m.field.bits;
      c' := Cursor(offset, bitOffset, Max(offset + m.field.ty.size, c.size), Max(a, c.alignment));
    } else {
      if bitOffset != 0 {
        offset := offset + ((bitOffset - 1) / CHAR_BIT + 1);
        bitOffset := 0;
      }
      offset := AlignOffset(offset, a);
      m.offset := offset;
      offset := offset + m.field.ty.size;
      m.bitStart, m.bits := 0, 0;
      c' := Cursor(offset, bitOffset, Max(offset, c.size), Max(a, c.alignment));
    }
  }

  lemma Unfold0(fs: seq<Field>)
    requires WellTypedAll(fs)
    ensures LayPrefix(fs, 0) == Going(Cursor(0, 0, 0, 0), [])
  {
  }

  lemma Unfold(fs: seq<Field>, k: nat)
    requires k < |fs| && WellTypedAll(fs) && LayPrefix(fs, k).Going?
    ensures LayPrefix(fs, k + 1) ==
      match Check(fs, k)
      case Some(why) => Refused(k, why)
      case None =>
        Going(Place(LayPrefix(fs, k).cursor, fs[k]).0,
              LayPrefix(fs, k).slots + [Place(LayPrefix(fs, k).cursor, fs[k]).1])
  {
  }

  /** Once a member is refused the loop goes no further. */
  lemma {:induction false} Stays(fs: seq<Field>, i: nat, k: nat, why: Fault)
    requires i < k <= |fs| && WellTypedAll(fs) && LayPrefix(fs, i + 1) == Refused(i, why)
    ensures LayPrefix(fs, k) == Refused(i, why)
    decreases k
  {
    if i + 1 < k {
      Stays(fs, i, k - 1, why);
    }
  }
}
