// Struct layout (ey_type_set_struct_type): bit-fields and plain members placed with an (offset, bit offset)
// pair that can move backwards, and a one-variable bit cursor it is shown to follow.
module StructLayout {
  import opened Wrappers
  import opened Alignment

  const CHAR_BIT: nat := 8

  datatype Kind = Integer | Void | Function | Array(baseDeclared: bool) | OtherKind

  datatype CType = CType(kind: Kind, size: nat, alignment: nat)

  /** A struct member; bits is 0 when it is not a bit-field. */
  datatype Field = Field(ty: CType, bits: nat)

  datatype Fault = NotInteger | TooWide | Undefined | NotArray | BaseUndefined | IsFunction

  /** ey_type_is_declared. */
  predicate Declared(ty: CType) {
    ty.size != 0 || ty.kind.Void? || ty.kind.Function?
  }

  /** Why the member at index i is refused. */
  function Check(fs: seq<Field>, i: nat): Option<Fault>
    requires i < |fs|
  {
    var f := fs[i];
    if f.bits != 0 then
      if !f.ty.kind.Integer? then Some(NotInteger)
      else if f.bits > f.ty.size * CHAR_BIT then Some(TooWide)
      else None
    else if !Declared(f.ty) && i + 1 < |fs| then Some(Undefined)
    else if !Declared(f.ty) && !f.ty.kind.Array? then Some(NotArray)
    else if !Declared(f.ty) && !f.ty.kind.baseDeclared then Some(BaseUndefined)
    else if f.ty.kind.Function? then Some(IsFunction)
    else None
  }

  // ----- what section 6.7.2.1 of ISO/IEC 9899:1999 lets a struct hold -----

  /** Object types whose size is known. */
  predicate Complete(ty: CType) {
    ty.size != 0 && !ty.kind.Void? && !ty.kind.Function?
  }

  /** T[], T a type that has been declared. */
  predicate OpenArray(ty: CType) {
    ty.size == 0 && ty.kind == Array(true)
  }

  /** A bit-field is an integer no wider than its type; any other member is complete, or an array T[] after others. */
  predicate Allowed(fs: seq<Field>, i: nat)
    requires i < |fs|
  {
    var Field(ty, bits) := fs[i];
    if bits > 0 then ty.kind == Integer && bits <= CHAR_BIT * ty.size
    else Complete(ty) || (OpenArray(ty) && 0 < i == |fs| - 1)
  }

  /** What the source takes beyond that: a member of type void, and an array T[] that is the only member. */
  predicate Lenient(fs: seq<Field>, i: nat)
    requires i < |fs|
  {
    var Field(ty, bits) := fs[i];
    bits == 0 && (ty.kind.Void? || (OpenArray(ty) && |fs| == 1))
  }

  /** Exactly these members pass the tests. */
  lemma CheckMeans(fs: seq<Field>, i: nat)
    requires i < |fs|
    ensures Check(fs, i).None? <==> Allowed(fs, i) || Lenient(fs, i)
  {
  }

  /** The four variables of the loop. */
  datatype Cursor = Cursor(offset: int, bitOffset: int, size: int, alignment: nat)

  /** What the loop writes into a member. */
  datatype Slot = Slot(offset: int, bitStart: int, bits: nat)

  function Max(a: int, b: int): int {
    if a > b then a else b
  }

  /** The bytes begun before a position of `bitOffset` bits. */
  function BytesBegun(bitOffset: int): (n: int)
    ensures bitOffset >= 0 ==> n >= 0
  {
    if bitOffset != 0 then (bitOffset - 1) / CHAR_BIT + 1 else 0
  }

  function PlaceBits(c: Cursor, f: Field): (Cursor, Slot)
    requires 0 <= c.offset && 0 <= c.bitOffset
  {
    var a := f.ty.alignment;
    var next := AlignOffset(c.offset + BytesBegun(c.bitOffset), a);
    var fits := next * CHAR_BIT - (c.bitOffset + CHAR_BIT * c.offset) >= f.bits;
    var bitOffset := if fits then c.bitOffset + (c.offset - next + a) * CHAR_BIT else 0;
    var offset := if fits then next - a else next;
    (Cursor(offset, bitOffset + f.bits, Max(offset + f.ty.size, c.size), Max(a, c.alignment)),
     Slot(offset, bitOffset, f.bits))
  }

  function PlacePlain(c: Cursor, f: Field): (Cursor, Slot)
    requires 0 <= c.offset && 0 <= c.bitOffset
  {
    var a := f.ty.alignment;
    var offset := AlignOffset(c.offset + BytesBegun(c.bitOffset), a);
    (Cursor(offset + f.ty.size, 0, Max(offset + f.ty.size, c.size), Max(a, c.alignment)),
     Slot(offset, 0, 0))
  }

  function Place(c: Cursor, f: Field): (Cursor, Slot)
    requires 0 <= c.offset && 0 <= c.bitOffset
  {
    if f.bits != 0 then PlaceBits(c, f) else PlacePlain(c, f)
  }

  // ----- the one-variable cursor -----

  /** Integer types have 1, 2, 4 or 8 bytes; alignments are 1, 2, 4, 8, or 0 for a type without a size. */
  predicate WellTyped(ty: CType) {
    && ty.alignment in {0, 1, 2, 4, 8}
    && (ty.kind.Integer? ==> ty.size in {1, 2, 4, 8} && ty.alignment == AlignmentOf(ty.size))
  }

  ghost predicate WellTypedAll(fs: seq<Field>) {
    forall i :: 0 <= i < |fs| ==> WellTyped(fs[i].ty)
  }

  /** The unit of a member, in bits. */
  function Unit(f: Field): nat {
    CHAR_BIT * (if f.ty.alignment == 0 then 1 else f.ty.alignment)
  }

  /** A bit-field starts where it is if it still fits its unit; everything else at the next multiple of the unit. */
  function StartBit(p: nat, f: Field): nat {
    if f.bits != 0 && p % Unit(f) + f.bits <= Unit(f) then p else RoundUp(p, Unit(f))
  }

  function EndBit(p: nat, f: Field): nat {
    StartBit(p, f) + (if f.bits != 0 then f.bits else f.ty.size * CHAR_BIT)
  }

  function Position(c: Cursor): int {
    CHAR_BIT * c.offset + c.bitOffset
  }

  predicate CursorOk(c: Cursor) {
    && 0 <= c.offset && 0 <= c.bitOffset && 0 <= c.size
    && c.alignment in {0, 1, 2, 4, 8}
    && Position(c) <= c.size * CHAR_BIT
  }

  /** What placing a member does: the cursor moves as the one-variable cursor does, and the slot is where that says. */
  ghost predicate PlacedAs(c: Cursor, f: Field, c': Cursor, slot: Slot)
    requires CursorOk(c)
  {
    && CursorOk(c')
    && Position(c') == EndBit(Position(c), f)
    && slot.offset >= 0 && slot.bitStart >= 0 && slot.bits == f.bits
    && slot.offset * CHAR_BIT + slot.bitStart == StartBit(Position(c), f)
    && (f.ty.alignment > 0 ==> slot.offset % f.ty.alignment == 0)
    && slot.bitStart + f.bits <= f.ty.size * CHAR_BIT
    && (f.bits == 0 ==> slot.bitStart == 0)
    && c'.size == Max(c.size, slot.offset + f.ty.size)
    && c'.alignment == Max(c.alignment, f.ty.alignment)
  }

  lemma SmallAlignments()
    ensures ULONG % 1 == 0 && ULONG % 2 == 0 && ULONG % 4 == 0 && ULONG % 8 == 0
  {
  }

  /** Rounding up from what is known of the remainder. */
  lemma RoundUpIs(p: nat, u: nat)
    requires u in {1, 2, 4, 8, 16, 32, 64}
    ensures RoundUp(p, u) == if p % u == 0 then p else p - p % u + u
    ensures RoundUp(p, u) % u == 0
  {
  }

  lemma BegunIs(offset: nat, bitOffset: nat)
    ensures (offset + BytesBegun(bitOffset)) * CHAR_BIT == RoundUp(CHAR_BIT * offset + bitOffset, CHAR_BIT)
  {
  }

  lemma OneInRange(q: nat, q': nat, p: nat, m: nat)
    requires p <= q * m < p + m && p <= q' * m < p + m
    ensures q == q'
  {
    assert (q + 1) * m == q * m + m && (q' + 1) * m == q' * m + m;
    if q < q' {
      Monotone(q + 1, q', m);
    } else if q' < q {
      Monotone(q' + 1, q, m);
    }
  }

  lemma Eightfold(q: nat, a: nat)
    ensures q * (CHAR_BIT * a) == q * a * CHAR_BIT
  {
  }

  lemma RoundBits(p: nat, begun: nat, a: nat)
    requires begun * CHAR_BIT == RoundUp(p, CHAR_BIT) && a > 0
    ensures RoundUp(begun, a) * CHAR_BIT == RoundUp(p, CHAR_BIT * a)
  {
    RoundUpLeast(p, CHAR_BIT);
    RoundUpLeast(begun, a);
    RoundUpLeast(p, CHAR_BIT * a);
    var q := (begun + a - 1) / a;
    var q' := (p + CHAR_BIT * a - 1) / (CHAR_BIT * a);
    Eightfold(q, a);
    OneInRange(q, q', p, CHAR_BIT * a);
  }

  /** The byte boundary both branches work with, in bits. */
  lemma NextBoundary(c: Cursor, a: nat)
    requires CursorOk(c) && a in {1, 2, 4, 8}
    ensures var next := AlignOffset(c.offset + BytesBegun(c.bitOffset), a);
            next * CHAR_BIT == RoundUp(Position(c), CHAR_BIT * a) && next % a == 0
  {
    SmallAlignments();
    var begun := c.offset + BytesBegun(c.bitOffset);
    AlignIsRoundUp(begun, a);
    BegunIs(c.offset, c.bitOffset);
    RoundBits(Position(c), begun, a);
    RoundUpIs(begun, a);
  }

  /** Where a bit-field starts, by how much room is left before the next boundary. */
  lemma StartByRoom(p: nat, f: Field)
    requires Unit(f) in {8, 16, 32, 64} && 0 < f.bits <= Unit(f)
    ensures var boundary := RoundUp(p, Unit(f));
            && p <= boundary < p + Unit(f)
            && StartBit(p, f) == if boundary - p >= f.bits then p else boundary
  {
    hide RoundUp;
    RoundUpIs(p, Unit(f));
  }

  lemma BitsPlacedAs(c: Cursor, f: Field)
    requires CursorOk(c) && WellTyped(f.ty) && f.ty.kind.Integer? && 0 < f.bits <= f.ty.size * CHAR_BIT
    ensures PlacedAs(c, f, PlaceBits(c, f).0, PlaceBits(c, f).1)
  {
    hide AlignOffset, RoundUp, BytesBegun, StartBit;
    NextBoundary(c, f.ty.alignment);
    StartByRoom(Position(c), f);
    BackOne(AlignOffset(c.offset + BytesBegun(c.bitOffset), f.ty.alignment), f.ty.alignment);
  }

  /** One unit before an aligned offset is an aligned offset. */
  lemma BackOne(next: nat, a: nat)
    requires a in {1, 2, 4, 8} && next % a == 0
    ensures next >= a ==> (next - a) % a == 0
  {
  }

  lemma PlainPlacedAs(c: Cursor, f: Field)
    requires CursorOk(c) && WellTyped(f.ty) && f.bits == 0
    ensures PlacedAs(c, f, PlacePlain(c, f).0, PlacePlain(c, f).1)
  {
    if f.ty.alignment > 0 {
      hide AlignOffset, RoundUp, BytesBegun;
      NextBoundary(c, f.ty.alignment);
      RoundUpIs(Position(c), Unit(f));
    } else {
      hide RoundUp, BytesBegun;
      BegunIs(c.offset, c.bitOffset);
      RoundUpIs(Position(c), CHAR_BIT);
    }
  }
}
