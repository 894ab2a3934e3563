// Whole structs: the loop over the members follows the one-variable cursor, so members are in order, apart,
// aligned, inside their units and covered by the size.
module StructTheorems {
  import opened Wrappers
  import opened Alignment
  import opened StructLayout

  /** The loop after k members: where it stands and what it has written, or the member it stopped at. */
  datatype Progress = Going(cursor: Cursor, slots: seq<Slot>) | Refused(index: nat, fault: Fault)

  function LayPrefix(fs: seq<Field>, k: nat): (r: Progress)
    requires k <= |fs| && WellTypedAll(fs)
    ensures r.Going? ==> CursorOk(r.cursor) && |r.slots| == k
    decreases k
  {
    if k == 0 then Going(Cursor(0, 0, 0, 0), [])
    else
      match LayPrefix(fs, k - 1)
      case Refused(i, fault) => Refused(i, fault)
      case Going(c, slots) =>
        match Check(fs, k - 1)
        case Some(fault) => Refused(k - 1, fault)
        case None =>
          PlaceKeeps(c, fs, k - 1);
          Going(Place(c, fs[k - 1]).0, slots + [Place(c, fs[k - 1]).1])
  }

  lemma PlaceKeeps(c: Cursor, fs: seq<Field>, i: nat)
    requires CursorOk(c) && i < |fs| && WellTypedAll(fs) && Check(fs, i).None?
    ensures PlacedAs(c, fs[i], Place(c, fs[i]).0, Place(c, fs[i]).1)
  {
    hide PlacedAs, CursorOk, PlaceBits, PlacePlain, WellTyped;
    if fs[i].bits != 0 {
      BitsPlacedAs(c, fs[i]);
    } else {
      PlainPlacedAs(c, fs[i]);
    }
  }

  datatype Layout = Laid(size: int, alignment: nat, slots: seq<Slot>) | Failed(index: nat, fault: Fault)

  function LayOut(fs: seq<Field>): Layout
    requires WellTypedAll(fs)
  {
    match LayPrefix(fs, |fs|)
    case Refused(i, fault) => Failed(i, fault)
    case Going(c, slots) => Laid(AlignOffset(c.size, c.alignment), c.alignment, slots)
  }

  // ----- when it fails -----

  lemma {:induction false} PrefixStops(fs: seq<Field>, k: nat)
    requires k <= |fs| && WellTypedAll(fs)
    ensures LayPrefix(fs, k).Going? <==> forall i :: 0 <= i < k ==> Check(fs, i).None?
    ensures LayPrefix(fs, k).Refused? ==>
      var r := LayPrefix(fs, k);
      r.index < k && Check(fs, r.index) == Some(r.fault) && forall i :: 0 <= i < r.index ==> Check(fs, i).None?
    decreases k
  {
    hide Check, Place, CursorOk, WellTypedAll;
    if k > 0 {
      PrefixStops(fs, k - 1);
    }
  }

  /** A struct is refused exactly when some member is, and then for the first such member. */
  lemma RefusedExactly(fs: seq<Field>)
    requires WellTypedAll(fs)
    ensures LayOut(fs).Laid? <==> forall i :: 0 <= i < |fs| ==> Check(fs, i).None?
    ensures LayOut(fs).Failed? ==>
      var r := LayOut(fs);
      r.index < |fs| && Check(fs, r.index) == Some(r.fault) && forall i :: 0 <= i < r.index ==> Check(fs, i).None?
  {
    hide Check;
    PrefixStops(fs, |fs|);
  }

  /** A struct is laid out exactly when each member is allowed or leniently taken; else the first other is reported. */
  lemma AcceptedExactly(fs: seq<Field>)
    requires WellTypedAll(fs)
    ensures LayOut(fs).Laid? <==> forall i :: 0 <= i < |fs| ==> Allowed(fs, i) || Lenient(fs, i)
    ensures LayOut(fs).Failed? ==>
      var at := LayOut(fs).index;
      && at < |fs| && !Allowed(fs, at) && !Lenient(fs, at)
      && forall i :: 0 <= i < at ==> Allowed(fs, i) || Lenient(fs, i)
  {
    hide Check, LayOut, Allowed, Lenient;
    RefusedExactly(fs);
    forall i | 0 <= i < |fs|
      ensures Check(fs, i).None? <==> Allowed(fs, i) || Lenient(fs, i)
    {
      CheckMeans(fs, i);
    }
  }

  /** The source agrees with the standard on a struct exactly when it refuses it or no member is leniently taken. */
  lemma StandardExactly(fs: seq<Field>)
    requires WellTypedAll(fs)
    ensures (LayOut(fs).Laid? <==> forall i :: 0 <= i < |fs| ==> Allowed(fs, i)) <==>
            (LayOut(fs).Failed? || forall i :: 0 <= i < |fs| ==> !Lenient(fs, i))
  {
    hide LayOut, Allowed, Lenient;
    AcceptedExactly(fs);
    forall i | 0 <= i < |fs| && Lenient(fs, i)
      ensures !Allowed(fs, i)
    {
      LenientIsNotAllowed(fs, i);
    }
    if LayOut(fs).Failed? {
      assert !Allowed(fs, LayOut(fs).index);
    } else if i :| 0 <= i < |fs| && Lenient(fs, i) {
      assert !Allowed(fs, i);
    }
  }

  lemma LenientIsNotAllowed(fs: seq<Field>, i: nat)
    requires i < |fs| && Lenient(fs, i)
    ensures !Allowed(fs, i)
  {
  }

  /** `struct { void v; }` is laid out. */
  lemma VoidMemberTaken()
    ensures var fs := [Field(CType(Void, 0, 0), 0)]; LayOut(fs).Laid? && !Allowed(fs, 0)
  {
    var fs := [Field(CType(Void, 0, 0), 0)];
    AcceptedExactly(fs);
    assert Lenient(fs, 0);
  }

  // ----- the one-variable cursor over all members -----

  function Before(fs: seq<Field>, i: nat): nat
    requires i <= |fs|
    decreases i
  {
    if i == 0 then 0 else EndBit(Before(fs, i - 1), fs[i - 1])
  }

  lemma {:induction false} PrefixFollows(fs: seq<Field>, k: nat)
    requires k <= |fs| && WellTypedAll(fs) && LayPrefix(fs, k).Going?
    ensures Position(LayPrefix(fs, k).cursor) == Before(fs, k)
    decreases k
  {
    if k > 0 {
      hide Check, CursorOk, EndBit, WellTypedAll, Position, Place;
      EachPlaced(fs, k - 1);
      PrefixFollows(fs, k - 1);
    }
  }

  /** The slot written for a member stays. */
  lemma {:induction false} SlotStays(fs: seq<Field>, i: nat, k: nat)
    requires i < k <= |fs| && WellTypedAll(fs) && LayPrefix(fs, k).Going?
    ensures LayPrefix(fs, i).Going?
    ensures LayPrefix(fs, k).slots[i] == Place(LayPrefix(fs, i).cursor, fs[i]).1
    decreases k
  {
    hide Check, CursorOk, WellTyped, Place;
    if i < k - 1 {
      SlotStays(fs, i, k - 1);
    }
  }

  /** What holds of each member once the loop has passed it. */
  lemma EachPlaced(fs: seq<Field>, i: nat)
    requires i < |fs| && WellTypedAll(fs) && LayPrefix(fs, i + 1).Going?
    ensures LayPrefix(fs, i).Going? && Check(fs, i).None?
    ensures PlacedAs(LayPrefix(fs, i).cursor, fs[i], LayPrefix(fs, i + 1).cursor,
                     Place(LayPrefix(fs, i).cursor, fs[i]).1)
    ensures LayPrefix(fs, i + 1).cursor == Place(LayPrefix(fs, i).cursor, fs[i]).0
    ensures Position(LayPrefix(fs, i + 1).cursor) == EndBit(Position(LayPrefix(fs, i).cursor), fs[i])
  {
    hide Check, Place, WellTyped, EndBit;
    PlaceKeeps(LayPrefix(fs, i).cursor, fs, i);
  }

  /** Each member starts at the bit the one-variable cursor gives, on its alignment, a bit-field inside its unit. */
  lemma FollowsCursor(fs: seq<Field>, i: nat)
    requires WellTypedAll(fs) && LayOut(fs).Laid? && i < |fs|
    ensures var slot, f := LayOut(fs).slots[i], fs[i];
            && slot.offset * CHAR_BIT + slot.bitStart == StartBit(Before(fs, i), f)
            && slot.bits == f.bits
            && slot.offset >= 0 && (f.ty.alignment > 0 ==> slot.offset % f.ty.alignment == 0)
            && 0 <= slot.bitStart && slot.bitStart + f.bits <= f.ty.size * CHAR_BIT
            && (f.bits == 0 ==> slot.bitStart == 0)
  {
    hide Check, Place, WellTyped, StartBit, EndBit, CursorOk, RoundUp;
    SlotStays(fs, i, |fs|);
    Earlier(fs, i + 1, |fs|);
    EachPlaced(fs, i);
    PrefixFollows(fs, i);
  }

  lemma {:induction false} Earlier(fs: seq<Field>, i: nat, k: nat)
    requires i <= k <= |fs| && WellTypedAll(fs) && LayPrefix(fs, k).Going?
    ensures LayPrefix(fs, i).Going?
    ensures LayPrefix(fs, i).cursor.size <= LayPrefix(fs, k).cursor.size
    ensures LayPrefix(fs, i).cursor.alignment <= LayPrefix(fs, k).cursor.alignment
    decreases k
  {
    hide Check, Place, WellTyped, CursorOk, EndBit;
    if i < k {
      EachPlaced(fs, k - 1);
      Earlier(fs, i, k - 1);
    }
  }

  lemma {:induction false} BeforeGrows(fs: seq<Field>, i: nat, j: nat)
    requires i <= j <= |fs|
    ensures Before(fs, i) <= Before(fs, j)
    decreases j
  {
    if i < j {
      BeforeGrows(fs, i, j - 1);
      StartNotBefore(Before(fs, j - 1), fs[j - 1]);
    }
  }

  lemma StartNotBefore(p: nat, f: Field)
    ensures p <= StartBit(p, f) <= EndBit(p, f)
  {
    RoundUpLeast(p, Unit(f));
  }

  function Width(f: Field): nat {
    if f.bits != 0 then f.bits else f.ty.size * CHAR_BIT
  }

  /** The members' bits are pairwise apart, in the order of declaration. */
  lemma MembersApart(fs: seq<Field>, i: nat, j: nat)
    requires WellTypedAll(fs) && LayOut(fs).Laid? && i < j < |fs|
    ensures var a, b := LayOut(fs).slots[i], LayOut(fs).slots[j];
            a.offset * CHAR_BIT + a.bitStart + Width(fs[i]) <= b.offset * CHAR_BIT + b.bitStart
  {
    hide StartBit, LayOut, WellTyped;
    FollowsCursor(fs, i);
    FollowsCursor(fs, j);
    BeforeGrows(fs, i + 1, j);
    StartNotBefore(Before(fs, j), fs[j]);
  }

  // ----- size and alignment -----

  /** The first byte behind a member, or behind the unit that holds it. */
  function End(slot: Slot, f: Field): int {
    slot.offset + f.ty.size
  }

  /** The largest of the members' alignments, and 0 without members. */
  ghost predicate LargestAlignment(fs: seq<Field>, a: nat) {
    && (forall i :: 0 <= i < |fs| ==> fs[i].ty.alignment <= a)
    && (a == 0 || exists i :: 0 <= i < |fs| && fs[i].ty.alignment == a)
  }

  /** A number that all members end at or before, and some member ends at, or 0 without members. */
  ghost predicate LastEnd(fs: seq<Field>, slots: seq<Slot>, n: int)
    requires |slots| == |fs|
  {
    && (forall i :: 0 <= i < |fs| ==> End(slots[i], fs[i]) <= n)
    && (n == 0 || exists i :: 0 <= i < |fs| && End(slots[i], fs[i]) == n)
  }

  /** The size is the least multiple of the alignment that no member ends behind, and the alignment the largest one. */
  lemma SizeExactly(fs: seq<Field>)
    requires WellTypedAll(fs) && LayOut(fs).Laid?
    ensures var Laid(size, a, slots) := LayOut(fs);
            && |slots| == |fs| && LargestAlignment(fs, a)
            && exists n: nat :: LastEnd(fs, slots, n) && if a == 0 then size == n else LeastMultiple(size, n, a)
  {
    hide Place, WellTyped;
    var Going(c, slots) := LayPrefix(fs, |fs|);
    LargestSoFar(fs, |fs|);
    assert fs[..|fs|] == fs && slots[..|fs|] == slots;
    if c.alignment > 0 {
      SmallAlignments();
      AlignIsRoundUp(c.size, c.alignment);
      RoundUpLeast(c.size, c.alignment);
    }
    assert LastEnd(fs, slots, c.size);
  }

  lemma {:induction false} LargestSoFar(fs: seq<Field>, k: nat)
    requires k <= |fs| && WellTypedAll(fs) && LayPrefix(fs, k).Going?
    ensures var Going(c, slots) := LayPrefix(fs, k);
            LargestAlignment(fs[..k], c.alignment) && LastEnd(fs[..k], slots, c.size)
    decreases k
  {
    if k > 0 {
      PrefixStep(fs, k - 1);
      hide Check, Place, EndBit, WellTyped, Position, LargestAlignment, LastEnd, LayPrefix, CursorOk, Max;
      LargestSoFar(fs, k - 1);
      assert fs[..k] == fs[..k - 1] + [fs[k - 1]];
      var slots := LayPrefix(fs, k - 1).slots;
      var slot := Place(LayPrefix(fs, k - 1).cursor, fs[k - 1]).1;
      OneMoreAlignment(fs[..k - 1], fs[k - 1], LayPrefix(fs, k - 1).cursor.alignment);
      OneMoreEnd(fs[..k - 1], slots, fs[k - 1], slot, LayPrefix(fs, k - 1).cursor.size);
    }
  }

  /** What one round of the loop adds. */
  lemma PrefixStep(fs: seq<Field>, k: nat)
    requires k < |fs| && WellTypedAll(fs) && LayPrefix(fs, k + 1).Going?
    ensures LayPrefix(fs, k).Going? && LayPrefix(fs, k).cursor.size >= 0
    ensures var Going(c, slots), Going(c', slots') := LayPrefix(fs, k), LayPrefix(fs, k + 1);
            var slot := Place(c, fs[k]).1;
            && slots' == slots + [slot]
            && c'.size == Max(c.size, End(slot, fs[k])) && c'.alignment == Max(c.alignment, fs[k].ty.alignment)
  {
    hide Check, Place, EndBit, WellTyped, Position;
    EachPlaced(fs, k);
  }

  lemma OneMoreAlignment(fs: seq<Field>, f: Field, a: nat)
    requires LargestAlignment(fs, a)
    ensures LargestAlignment(fs + [f], Max(a, f.ty.alignment))
  {
    var r := fs + [f];
    assert r[|fs|] == f;
    if i :| 0 <= i < |fs| && fs[i].ty.alignment == a {
      assert r[i] == fs[i];
    }
  }

  lemma OneMoreEnd(fs: seq<Field>, slots: seq<Slot>, f: Field, slot: Slot, n: int)
    requires |slots| == |fs| && LastEnd(fs, slots, n) && n >= 0
    ensures LastEnd(fs + [f], slots + [slot], Max(n, End(slot, f)))
  {
    var r, t := fs + [f], slots + [slot];
    assert r[|fs|] == f && t[|fs|] == slot;
    if i :| 0 <= i < |fs| && End(slots[i], fs[i]) == n {
      assert r[i] == fs[i] && t[i] == slots[i];
    }
  }

  /** The size is a multiple of the alignment, the alignment is a multiple of each member's, and each member fits. */
  lemma SizeCovers(fs: seq<Field>)
    requires WellTypedAll(fs) && LayOut(fs).Laid?
    ensures var r := LayOut(fs);
            && (r.alignment > 0 ==> r.size % r.alignment == 0)
            && forall i :: 0 <= i < |fs| ==>
                 && r.slots[i].offset + fs[i].ty.size <= r.size
                 && (fs[i].ty.alignment > 0 ==> r.alignment % fs[i].ty.alignment == 0)
  {
    var c := LayPrefix(fs, |fs|).cursor;
    if c.alignment > 0 {
      SmallAlignments();
      AlignIsRoundUp(c.size, c.alignment);
      RoundUpLeast(c.size, c.alignment);
    }
    forall i | 0 <= i < |fs|
      ensures LayOut(fs).slots[i].offset + fs[i].ty.size <= c.size
      ensures fs[i].ty.alignment > 0 ==> c.alignment % fs[i].ty.alignment == 0
    {
      CoversOne(fs, i);
    }
  }

  lemma {:induction false} CoversOne(fs: seq<Field>, i: nat)
    requires WellTypedAll(fs) && LayPrefix(fs, |fs|).Going? && i < |fs|
    ensures var c := LayPrefix(fs, |fs|).cursor;
            && LayPrefix(fs, |fs|).slots[i].offset + fs[i].ty.size <= c.size
            && (fs[i].ty.alignment > 0 ==> c.alignment % fs[i].ty.alignment == 0)
  {
    hide Check, Place, EndBit, StartBit, LayPrefix, Position;
    SlotStays(fs, i, |fs|);
    Earlier(fs, i + 1, |fs|);
    EachPlaced(fs, i);
    Earlier(fs, i, |fs|);
  }
}
