// Type specifiers: ey_type_combine folded from the right over a declaration's specifiers, and what the
// specifiers mean by section 6.7.2 of ISO/IEC 9899:1999.
module Specifiers {
  import opened Wrappers

  /** The values of ey_type_type_t that specifiers and their combinations have. */
  datatype Kind =
    | SignedChar | UnsignedChar | SignedShort | UnsignedShort | SignedInt | UnsignedInt
    | SignedLong | UnsignedLong | SignedLongLong | UnsignedLongLong
    | Float | Double | Void | Pesudo | Signed | Unsigned | Char | Short | ShortInt
    | SignedShortInt | UnsignedShortInt | Int | Long | LongInt | SignedLongInt | UnsignedLongInt
    | LongLong | LongLongInt | SignedLongLongInt | UnsignedLongLongInt | StructTag | UnionTag | EnumTag

  // ----- ey_type_combine -----

  /** The inner switch under CHAR. */
  function CharWith(dst: Kind, src: Kind): Option<Kind> {
    match src
    case Pesudo => Some(dst)
    case Signed => Some(SignedChar)
    case Unsigned => Some(UnsignedChar)
    case _ => None
  }

  function ShortWith(dst: Kind, src: Kind): Option<Kind> {
    match src
    case Pesudo => Some(dst)
    case Int => Some(ShortInt)
    case UnsignedInt => Some(UnsignedShortInt)
    case SignedInt => Some(SignedShortInt)
    case Signed => Some(SignedShort)
    case Unsigned => Some(UnsignedShort)
    case _ => None
  }

  function IntWith(dst: Kind, src: Kind): Option<Kind> {
    match src
    case Pesudo => Some(dst)
    case Signed => Some(SignedInt)
    case Unsigned => Some(UnsignedInt)
    case Short => Some(ShortInt)
    case SignedShort => Some(SignedShortInt)
    case UnsignedShort => Some(UnsignedShortInt)
    case Long => Some(LongInt)
    case SignedLong => Some(SignedLongInt)
    case UnsignedLong => Some(UnsignedLongInt)
    case LongLong => Some(LongLongInt)
    case SignedLongLong => Some(SignedLongLongInt)
    case UnsignedLongLong => Some(UnsignedLongLongInt)
    case _ => None
  }

  function LongWith(dst: Kind, src: Kind): Option<Kind> {
    match src
    case Pesudo => Some(dst)
    case Int => Some(LongInt)
    case SignedInt => Some(SignedLongInt)
    case UnsignedInt => Some(UnsignedLongInt)
    case Signed => Some(SignedLong)
    case Unsigned => Some(UnsignedLong)
    case Long => Some(LongLong)
    case SignedLong => Some(SignedLongLong)
    case UnsignedLong => Some(UnsignedLongLong)
    case LongInt => Some(LongLongInt)
    case SignedLongInt => Some(SignedLongLongInt)
    case UnsignedLongInt => Some(UnsignedLongLongInt)
    case _ => None
  }

  function SignedWith(dst: Kind, src: Kind): Option<Kind> {
    match src
    case Pesudo => Some(dst)
    case Char => Some(SignedChar)
    case Short => Some(SignedShort)
    case ShortInt => Some(SignedShortInt)
    case Int => Some(SignedInt)
    case Long => Some(SignedLong)
    case LongInt => Some(SignedLongInt)
    case LongLong => Some(SignedLongLong)
    case LongLongInt => Some(SignedLongLongInt)
    case _ => None
  }

  function UnsignedWith(dst: Kind, src: Kind): Option<Kind> {
    match src
    case Pesudo => Some(dst)
    case Char => Some(UnsignedChar)
    case Short => Some(UnsignedShort)
    case ShortInt => Some(UnsignedShortInt)
    case Int => Some(UnsignedInt)
    case Long => Some(UnsignedLong)
    case LongInt => Some(UnsignedLongInt)
    case LongLong => Some(UnsignedLongLong)
    case LongLongInt => Some(UnsignedLongLongInt)
    case _ => None
  }

  /** There is no break at the end of the CHAR case: what it did is then overwritten by the SHORT case. */
  function Combine(dst: Kind, src: Kind): Option<Kind> {
    match dst
    case Char =>
      (match CharWith(dst, src)
       case None => None
       case Some(k) => ShortWith(k, src))
    case Short => ShortWith(dst, src)
    case Int => IntWith(dst, src)
    case Long => LongWith(dst, src)
    case Signed => SignedWith(dst, src)
    case Unsigned => UnsignedWith(dst, src)
    case Void | Float | Double | StructTag | UnionTag | EnumTag => if src == Pesudo then Some(dst) else None
    case _ => None
  }

  // ----- declaration_specifiers -----

  /** The type specifiers of the grammar that one token or tag makes. */
  predicate Specifier(k: Kind) {
    k in {Char, Short, Int, Long, Signed, Unsigned, Void, Float, Double, StructTag, UnionTag, EnumTag}
  }

  predicate Specifiers(l: seq<Kind>) {
    forall i :: 0 <= i < |l| ==> Specifier(l[i])
  }

  /** The list folded from the right; `end` is Pesudo when a qualifier or storage class follows the last specifier. */
  function Fold(l: seq<Kind>, pesudoEnd: bool): Option<Kind>
    requires l != [] || pesudoEnd
  {
    if l == [] then Some(Pesudo)
    else if |l| == 1 && !pesudoEnd then Some(l[0])
    else
      match Fold(l[1..], pesudoEnd)
      case None => None
      case Some(k) => Combine(l[0], k)
  }

  // ----- the meaning of a multiset of specifiers -----

  datatype Sign = NoSign | IsSigned | IsUnsigned

  /** Which combination of char, short, int and long is named. */
  datatype Width = NoWidth | AChar | AShort | AShortInt | AnInt | ALong | ALongInt | ALongLong | ALongLongInt

  /** The width that so many char, short, int and long name, if any. */
  function WidthOf(chars: nat, shorts: nat, ints: nat, longs: nat): Option<Width> {
    if chars == 0 && shorts == 0 && longs == 0 && ints <= 1 then Some(if ints == 0 then NoWidth else AnInt)
    else if chars == 1 && shorts == 0 && ints == 0 && longs == 0 then Some(AChar)
    else if chars == 0 && shorts == 1 && ints <= 1 && longs == 0 then Some(if ints == 0 then AShort else AShortInt)
    else if chars == 0 && shorts == 0 && ints <= 1 && longs == 1 then Some(if ints == 0 then ALong else ALongInt)
    else if chars == 0 && shorts == 0 && ints <= 1 && longs == 2 then
      Some(if ints == 0 then ALongLong else ALongLongInt)
    else None
  }

  function SignOf(signeds: nat, unsigneds: nat): Option<Sign> {
    if signeds == 0 && unsigneds == 0 then Some(NoSign)
    else if signeds == 1 && unsigneds == 0 then Some(IsSigned)
    else if signeds == 0 && unsigneds == 1 then Some(IsUnsigned)
    else None
  }

  function KindOf(w: Width, g: Sign): Kind {
    match (w, g)
    case (NoWidth, NoSign) => Pesudo
    case (NoWidth, IsSigned) => Signed
    case (NoWidth, IsUnsigned) => Unsigned
    case (AChar, NoSign) => Char
    case (AChar, IsSigned) => SignedChar
    case (AChar, IsUnsigned) => UnsignedChar
    case (AShort, NoSign) => Short
    case (AShort, IsSigned) => SignedShort
    case (AShort, IsUnsigned) => UnsignedShort
    case (AShortInt, NoSign) => ShortInt
    case (AShortInt, IsSigned) => SignedShortInt
    case (AShortInt, IsUnsigned) => UnsignedShortInt
    case (AnInt, NoSign) => Int
    case (AnInt, IsSigned) => SignedInt
    case (AnInt, IsUnsigned) => UnsignedInt
    case (ALong, NoSign) => Long
    case (ALong, IsSigned) => SignedLong
    case (ALong, IsUnsigned) => UnsignedLong
    case (ALongInt, NoSign) => LongInt
    case (ALongInt, IsSigned) => SignedLongInt
    case (ALongInt, IsUnsigned) => UnsignedLongInt
    case (ALongLong, NoSign) => LongLong
    case (ALongLong, IsSigned) => SignedLongLong
    case (ALongLong, IsUnsigned) => UnsignedLongLong
    case (ALongLongInt, NoSign) => LongLongInt
    case (ALongLongInt, IsSigned) => SignedLongLongInt
    case (ALongLongInt, IsUnsigned) => UnsignedLongLongInt
  }

  /** void, float, double and the tags combine with nothing. */
  predicate Alone(k: Kind) {
    k in {Void, Float, Double, StructTag, UnionTag, EnumTag}
  }

  function FromCounts(chars: nat, shorts: nat, ints: nat, longs: nat, signeds: nat, unsigneds: nat): Option<Kind> {
    match (WidthOf(chars, shorts, ints, longs), SignOf(signeds, unsigneds))
    case (Some(w), Some(g)) => Some(KindOf(w, g))
    case _ => None
  }

  function Others(m: multiset<Kind>): nat {
    m[Void] + m[Float] + m[Double] + m[StructTag] + m[UnionTag] + m[EnumTag]
  }

  /** The type a multiset of specifiers stands for; it says nothing of their order. */
  function Meaning(m: multiset<Kind>): Option<Kind> {
    if Others(m) == 0 then FromCounts(m[Char], m[Short], m[Int], m[Long], m[Signed], m[Unsigned])
    else if m[Char] + m[Short] + m[Int] + m[Long] + m[Signed] + m[Unsigned] != 0 || Others(m) > 1 then None
    else if m[Void] == 1 then Some(Void)
    else if m[Float] == 1 then Some(Float)
    else if m[Double] == 1 then Some(Double)
    else if m[StructTag] == 1 then Some(StructTag)
    else if m[UnionTag] == 1 then Some(UnionTag)
    else Some(EnumTag)
  }

  // ----- the fold computes the meaning -----

  /** The lists the missing break misreads. */
  predicate Misread(l: seq<Kind>) {
    || l == [Char, Signed] || l == [Char, Unsigned]
    || l == [Int, Char, Signed] || l == [Int, Char, Unsigned]
  }

  function MisreadAs(l: seq<Kind>): Kind
    requires Misread(l)
  {
    if l == [Char, Signed] then SignedShort
    else if l == [Char, Unsigned] then UnsignedShort
    else if l == [Int, Char, Signed] then SignedShortInt
    else UnsignedShortInt
  }

  function CombineAll(first: Kind, rest: Option<Kind>): Option<Kind> {
    match rest
    case None => None
    case Some(k) => Combine(first, k)
  }

  /** One more sign, or one more of the widths that combine. */
  lemma {:induction false} OneMoreSign(first: Kind, c: nat, s: nat, i: nat, l: nat, g: nat, u: nat)
    requires first in {Signed, Unsigned}
    ensures CombineAll(first, FromCounts(c, s, i, l, g, u)) ==
            FromCounts(c, s, i, l, if first == Signed then g + 1 else g, if first == Unsigned then u + 1 else u)
  {
    hide WidthOf;
  }

  lemma {:induction false} OneMoreWidth(first: Kind, c: nat, s: nat, i: nat, l: nat, g: nat, u: nat)
    requires first in {Short, Int, Long}
    ensures CombineAll(first, FromCounts(c, s, i, l, g, u)) ==
            FromCounts(c, if first == Short then s + 1 else s, if first == Int then i + 1 else i,
                       if first == Long then l + 1 else l, g, u)
  {
    hide SignOf;
  }

  lemma {:induction false} OneMoreChar(c: nat, s: nat, i: nat, l: nat, g: nat, u: nat)
    ensures CombineAll(Char, FromCounts(c, s, i, l, g, u)) == FromCounts(c + 1, s, i, l, g, u) <==>
            FromCounts(c, s, i, l, g, u) !in {Some(Signed), Some(Unsigned)}
    ensures FromCounts(c, s, i, l, g, u) == Some(Signed) ==>
            CombineAll(Char, FromCounts(c, s, i, l, g, u)) == Some(SignedShort)
    ensures FromCounts(c, s, i, l, g, u) == Some(Unsigned) ==>
            CombineAll(Char, FromCounts(c, s, i, l, g, u)) == Some(UnsignedShort)
  {
  }

  lemma {:induction false} MeaningStep(first: Kind, m: multiset<Kind>)
    requires first in {Short, Int, Long, Signed, Unsigned}
    ensures CombineAll(first, Meaning(m)) == Meaning(m + multiset{first})
  {
    hide FromCounts;
    var m' := m + multiset{first};
    assert Others(m') == Others(m);
    if first in {Signed, Unsigned} {
      OneMoreSign(first, m[Char], m[Short], m[Int], m[Long], m[Signed], m[Unsigned]);
    } else {
      OneMoreWidth(first, m[Char], m[Short], m[Int], m[Long], m[Signed], m[Unsigned]);
    }
  }

  lemma {:induction false} MeaningStepChar(m: multiset<Kind>)
    ensures Meaning(m) !in {Some(Signed), Some(Unsigned)} ==>
      CombineAll(Char, Meaning(m)) == Meaning(m + multiset{Char})
    ensures Meaning(m) == Some(Signed) ==> CombineAll(Char, Meaning(m)) == Some(SignedShort)
    ensures Meaning(m) == Some(Unsigned) ==> CombineAll(Char, Meaning(m)) == Some(UnsignedShort)
  {
    hide FromCounts;
    var m' := m + multiset{Char};
    assert Others(m') == Others(m);
    OneMoreChar(m[Char], m[Short], m[Int], m[Long], m[Signed], m[Unsigned]);
  }

  lemma {:induction false} MeaningStepAlone(first: Kind, m: multiset<Kind>)
    requires Alone(first)
    ensures CombineAll(first, Meaning(m)) == Meaning(m + multiset{first}) || Meaning(m) == Some(Pesudo)
  {
    var m' := m + multiset{first};
    assert Others(m') == Others(m) + 1;
  }

  lemma {:induction false} OnlyOne(l: seq<Kind>, k: Kind)
    requires Specifiers(l) && Meaning(multiset(l)) == Some(k) && k in {Signed, Unsigned}
    ensures l == [k]
  {
    SmallMeaning(multiset(l), k);
    CountAll(l);
    assert |l| == 1;
    assert l == [l[0]];
  }

  lemma {:induction false} NoneAtAll(l: seq<Kind>)
    requires Specifiers(l) && Meaning(multiset(l)) == Some(Pesudo)
    ensures l == []
  {
    SmallMeaning(multiset(l), Pesudo);
    CountAll(l);
  }

  /** The counts behind a meaning without a width. */
  lemma {:induction false} SmallMeaning(m: multiset<Kind>, k: Kind)
    requires Meaning(m) == Some(k) && k in {Pesudo, Signed, Unsigned}
    ensures m[Char] == m[Short] == m[Int] == m[Long] == Others(m) == 0
    ensures m[Signed] == (if k == Signed then 1 else 0) && m[Unsigned] == (if k == Unsigned then 1 else 0)
  {
  }

  function Total(m: multiset<Kind>): nat {
    m[Char] + m[Short] + m[Int] + m[Long] + m[Signed] + m[Unsigned] + Others(m)
  }

  lemma {:induction false} OneMoreInTotal(k: Kind, m: multiset<Kind>)
    requires Specifier(k)
    ensures Total(m + multiset{k}) == Total(m) + 1
  {
    var m' := m + multiset{k};
    assert m'[k] == m[k] + 1;
    assert forall j :: j != k ==> m'[j] == m[j];
  }

  lemma {:induction false} CountAll(l: seq<Kind>)
    requires Specifiers(l)
    ensures |l| == Total(multiset(l))
  {
    hide Total;
    if l == [] {
      assert Total(multiset{}) == 0 by {
        NoneInTotal();
      }
    } else {
      var rest := l[1..];
      assert forall i :: 0 <= i < |rest| ==> rest[i] == l[i + 1];
      CountAll(rest);
      Apart(l);
      OneMoreInTotal(l[0], multiset(rest));
    }
  }

  lemma {:induction false} NoneInTotal()
    ensures Total(multiset{}) == 0
  {
  }

  lemma {:induction false} Apart(l: seq<Kind>)
    requires l != []
    ensures multiset(l) == multiset(l[1..]) + multiset{l[0]}
  {
    assert l == [l[0]] + l[1..];
  }

  // ----- the fold -----

  /** What the fold gives for every list. */
  function Expected(l: seq<Kind>): Option<Kind> {
    if Misread(l) then Some(MisreadAs(l)) else Meaning(multiset(l))
  }

  lemma {:induction false} FoldStep(l: seq<Kind>)
    requires Specifiers(l) && l != []
    ensures CombineAll(l[0], Expected(l[1..])) == Expected(l)
  {
    var rest := l[1..];
    assert forall i :: 0 <= i < |rest| ==> rest[i] == l[i + 1];
    Apart(l);
    assert Specifier(l[0]);
    if Misread(rest) {
      AfterMisread(l);
    } else if l[0] == Char {
      CharStep(l);
    } else if Alone(l[0]) {
      AloneStep(l);
    } else {
      MeaningStep(l[0], multiset(rest));
      NotMisread(l);
    }
  }

  /** A list that is misread, by its tail. */
  lemma {:induction false} NotMisread(l: seq<Kind>)
    ensures Misread(l) ==> l[0] == Char || (l[0] == Int && Misread(l[1..]))
  {
  }

  lemma {:induction false} CharStep(l: seq<Kind>)
    requires Specifiers(l) && l != [] && l[0] == Char && !Misread(l[1..])
    ensures CombineAll(Char, Meaning(multiset(l[1..]))) == Expected(l)
  {
    hide CombineAll, Meaning;
    var rest := l[1..];
    Apart(l);
    MeaningStepChar(multiset(rest));
    assert l == [Char] + rest;
    assert forall i :: 0 <= i < |rest| ==> rest[i] == l[i + 1];
    if Meaning(multiset(rest)) == Some(Signed) {
      OnlyOne(rest, Signed);
    } else if Meaning(multiset(rest)) == Some(Unsigned) {
      OnlyOne(rest, Unsigned);
    } else {
      assert Meaning(multiset([Signed])) == Some(Signed) && Meaning(multiset([Unsigned])) == Some(Unsigned) by {
        SignsAlone();
      }
      assert !Misread(l);
    }
  }

  lemma {:induction false} SignsAlone()
    ensures Meaning(multiset([Signed])) == Some(Signed) && Meaning(multiset([Unsigned])) == Some(Unsigned)
  {
  }

  lemma {:induction false} AloneStep(l: seq<Kind>)
    requires Specifiers(l) && l != [] && Alone(l[0]) && !Misread(l[1..])
    ensures CombineAll(l[0], Meaning(multiset(l[1..]))) == Expected(l)
  {
    hide Meaning, CombineAll;
    var rest := l[1..];
    assert l == [l[0]] + rest;
    assert forall i :: 0 <= i < |rest| ==> rest[i] == l[i + 1];
    Apart(l);
    NotMisread(l);
    MeaningStepAlone(l[0], multiset(rest));
    if Meaning(multiset(rest)) == Some(Pesudo) {
      NoneAtAll(rest);
      assert l == [l[0]];
      JustOne(l[0]);
    }
  }

  lemma {:induction false} JustOne(k: Kind)
    requires Alone(k)
    ensures Meaning(multiset([k])) == Some(k) && CombineAll(k, Some(Pesudo)) == Some(k)
  {
  }

  /** What the misread lists mean: a char type, or nothing with int in front. */
  lemma {:induction false} MeaningOfMisread(l: seq<Kind>)
    requires Misread(l)
    ensures Meaning(multiset(l)) in {Some(SignedChar), Some(UnsignedChar), None}
  {
    if l == [Char, Signed] {
      assert multiset(l) == multiset{Char, Signed};
    } else if l == [Char, Unsigned] {
      assert multiset(l) == multiset{Char, Unsigned};
    } else if l == [Int, Char, Signed] {
      assert multiset(l) == multiset{Int, Char, Signed};
    } else {
      assert multiset(l) == multiset{Int, Char, Unsigned};
    }
  }

  /** Nothing combines with a char type, and with a short type only int. */
  lemma {:induction false} NothingMore(first: Kind, k: Kind)
    requires Specifier(first)
    ensures k in {SignedChar, UnsignedChar, SignedShortInt, UnsignedShortInt} ==> Combine(first, k) == None
    ensures k in {SignedShort, UnsignedShort} && first != Int ==> Combine(first, k) == None
  {
  }

  /** Only int in front makes another list that is misread; anything else fails, as it should. */
  lemma {:induction false} AfterMisread(l: seq<Kind>)
    requires Specifiers(l) && l != [] && Misread(l[1..])
    ensures CombineAll(l[0], Some(MisreadAs(l[1..]))) == Expected(l)
  {
    hide Meaning, Combine;
    var rest := l[1..];
    assert l == [l[0]] + rest;
    assert Specifier(l[0]);
    MeaningOfMisread(rest);
    NothingMore(l[0], MisreadAs(rest));
    NothingMore(l[0], SignedChar);
    NothingMore(l[0], UnsignedChar);
    if Misread(l) {
      IntShort();
    } else {
      MeaningOfLonger(l);
      assert l[0] == Int ==> |rest| == 3;
    }
  }

  lemma {:induction false} IntShort()
    ensures Combine(Int, SignedShort) == Some(SignedShortInt) && Combine(Int, UnsignedShort) == Some(UnsignedShortInt)
  {
  }

  lemma {:induction false} MeaningOfLonger(l: seq<Kind>)
    requires Specifiers(l) && l != [] && Meaning(multiset(l[1..])) in {Some(SignedChar), Some(UnsignedChar), None}
    ensures Meaning(multiset(l)) == None
  {
    hide Meaning, Combine;
    Apart(l);
    assert Specifier(l[0]);
    var m := multiset(l[1..]);
    NothingMore(l[0], SignedChar);
    NothingMore(l[0], UnsignedChar);
    if l[0] == Char {
      MeaningStepChar(m);
    } else if Alone(l[0]) {
      MeaningStepAlone(l[0], m);
    } else {
      MeaningStep(l[0], m);
    }
  }

  /** The fold over every list: the meaning of its specifiers, but for the lists the missing break misreads. */
  lemma {:induction false} FoldIs(l: seq<Kind>, pesudoEnd: bool)
    requires Specifiers(l) && (l != [] || pesudoEnd)
    ensures Fold(l, pesudoEnd) == Expected(l)
    decreases |l|
  {
    hide Meaning, Combine, Misread;
    if l == [] {
      NothingMeans();
    } else {
      FoldStep(l);
      assert forall i :: 0 <= i < |l[1..]| ==> l[1..][i] == l[i + 1];
      if |l| == 1 && !pesudoEnd {
        assert l == [l[0]];
        OneMeans(l[0]);
      } else {
        FoldIs(l[1..], pesudoEnd);
      }
    }
  }

  lemma {:induction false} NothingMeans()
    ensures Expected([]) == Some(Pesudo)
  {
    var none: seq<Kind> := [];
    assert multiset(none) == multiset{};
  }

  lemma {:induction false} OneMeans(k: Kind)
    requires Specifier(k)
    ensures Expected([k]) == Some(k)
  {
    assert multiset([k]) == multiset{k};
  }

  /** The fold gives the meaning exactly when char is not followed by a lone signed or unsigned, or int by those two. */
  lemma {:induction false} FoldMeansExactly(l: seq<Kind>, pesudoEnd: bool)
    requires Specifiers(l) && (l != [] || pesudoEnd)
    ensures Fold(l, pesudoEnd) == Meaning(multiset(l)) <==> !Misread(l)
  {
    FoldIs(l, pesudoEnd);
    if Misread(l) {
      hide Meaning;
      MeaningOfMisread(l);
    }
  }

  /** Reordering the specifiers changes nothing, nor does a qualifier after the last one. */
  lemma {:induction false} OrderDoesNotMatter(l: seq<Kind>, r: seq<Kind>, pl: bool, pr: bool)
    requires Specifiers(l) && (l != [] || pl) && Specifiers(r) && (r != [] || pr)
    requires multiset(l) == multiset(r) && !Misread(l) && !Misread(r)
    ensures Fold(l, pl) == Fold(r, pr)
  {
    FoldIs(l, pl);
    FoldIs(r, pr);
  }

  // ----- qualifiers and storage classes -----

  /** A declaration specifier: a type specifier, a qualifier or `inline`, or a storage class. */
  datatype Item = Spec(kind: Kind) | Qualifier | Storage

  const STORAGE_CLASS_MASK: bv32 := 0xF8

  /** The test of what follows a storage class; its `|` is meant to be `&`. */
  predicate SecondStorage(qualifiers: bv32) {
    (qualifiers | STORAGE_CLASS_MASK) != 0
  }

  lemma AlwaysSecond(qualifiers: bv32)
    ensures SecondStorage(qualifiers)
  {
    assert (qualifiers | STORAGE_CLASS_MASK) & STORAGE_CLASS_MASK == STORAGE_CLASS_MASK;
  }

  /** The qualifier_class that a list comes to; no result below depends on it. */
  type Bits = seq<Item> -> bv32

  /** declaration_specifiers on a whole list. */
  function FoldItems(l: seq<Item>, bits: Bits): Option<Kind>
    requires l != []
  {
    if |l| == 1 then Some(if l[0].Spec? then l[0].kind else Pesudo)
    else
      match FoldItems(l[1..], bits)
      case None => None
      case Some(k) =>
        match l[0]
        case Qualifier => Some(k)
        case Storage => if SecondStorage(bits(l[1..])) then None else Some(k)
        case Spec(d) => Combine(d, k)
  }

  /** The type specifiers of a list. */
  function Kinds(l: seq<Item>): seq<Kind> {
    if l == [] then [] else (if l[0].Spec? then [l[0].kind] else []) + Kinds(l[1..])
  }

  /** A storage class that is not at the end. */
  predicate StorageBefore(l: seq<Item>) {
    exists i :: 0 <= i < |l| - 1 && l[i].Storage?
  }

  lemma {:induction false} KindsLast(l: seq<Item>)
    requires l != [] && l[|l| - 1].Spec?
    ensures Kinds(l) != []
  {
    if |l| > 1 {
      KindsLast(l[1..]);
    }
  }

  /**
    * Qualifiers anywhere change nothing, and neither does a storage class at the end; but one anywhere else
    * makes the list refused, whatever follows it.
    */
  lemma {:induction false} FoldItemsIs(l: seq<Item>, bits: Bits)
    requires l != []
    ensures var end := !l[|l| - 1].Spec?; end || Kinds(l) != []
    ensures var end := !l[|l| - 1].Spec?;
            FoldItems(l, bits) == if StorageBefore(l) then None else Fold(Kinds(l), end)
  {
    hide Combine, StorageBefore, SecondStorage, Kinds, Fold;
    KindsStep(l);
    StorageStep(l);
    if |l| > 1 {
      FoldItemsIs(l[1..], bits);
      AlwaysSecond(bits(l[1..]));
      if l[0].Spec? {
        FoldOneMore(l[0].kind, Kinds(l[1..]), !l[|l| - 1].Spec?);
      }
    } else {
      FoldOne(l[0]);
    }
  }

  lemma {:induction false} KindsStep(l: seq<Item>)
    requires l != []
    ensures Kinds(l) == (if l[0].Spec? then [l[0].kind] else []) + Kinds(l[1..])
    ensures l[|l| - 1].Spec? ==> Kinds(l) != []
    ensures |l| == 1 ==> Kinds(l[1..]) == []
    ensures !l[0].Spec? ==> Kinds(l) == Kinds(l[1..])
  {
    if l[|l| - 1].Spec? {
      KindsLast(l);
    }
  }

  lemma {:induction false} StorageStep(l: seq<Item>)
    requires l != []
    ensures StorageBefore(l) <==> |l| > 1 && (l[0].Storage? || StorageBefore(l[1..]))
  {
    var rest := l[1..];
    if StorageBefore(rest) {
      var i :| 0 <= i < |rest| - 1 && rest[i].Storage?;
      assert l[i + 1].Storage?;
    }
    if StorageBefore(l) {
      var i :| 0 <= i < |l| - 1 && l[i].Storage?;
      assert i > 0 ==> rest[i - 1].Storage?;
    }
  }

  lemma {:induction false} FoldOneMore(k: Kind, l: seq<Kind>, pesudoEnd: bool)
    requires l != [] || pesudoEnd
    ensures Fold([k] + l, pesudoEnd) ==
            match Fold(l, pesudoEnd)
            case None => None
            case Some(r) => Combine(k, r)
  {
    hide Combine;
    assert ([k] + l)[1..] == l;
  }

  lemma {:induction false} FoldOne(item: Item)
    ensures item.Spec? ==> Fold([item.kind] + [], false) == Some(item.kind)
    ensures Fold([], true) == Some(Pesudo)
  {
  }

  /** `static int` is refused and `int static` is accepted. */
  lemma {:induction false} StaticInt(bits: Bits)
    ensures FoldItems([Storage, Spec(Int)], bits) == None
    ensures FoldItems([Spec(Int), Storage], bits) == Some(Int)
  {
    assert [Storage, Spec(Int)][1..] == [Spec(Int)] && [Spec(Int), Storage][1..] == [Storage];
    AlwaysSecond(bits([Spec(Int)]));
  }

  // ----- ey_type_normalize -----

  function Normalize(k: Kind): Option<Kind> {
    match k
    case Char | SignedChar => Some(SignedChar)
    case SignedShort | Short | ShortInt | SignedShortInt => Some(SignedShort)
    case UnsignedShort | UnsignedShortInt => Some(UnsignedShort)
    case SignedInt | Int | Signed | Pesudo => Some(SignedInt)
    case UnsignedInt | Unsigned => Some(UnsignedInt)
    case SignedLong | Long | LongInt | SignedLongInt => Some(SignedLong)
    case UnsignedLong | UnsignedLongInt => Some(UnsignedLong)
    case SignedLongLong | LongLong | LongLongInt | SignedLongLongInt => Some(SignedLongLong)
    case UnsignedLongLong | UnsignedLongLongInt => Some(UnsignedLongLong)
    case UnsignedChar | Float | Double | Void | StructTag | UnionTag | EnumTag => Some(k)
  }

  /** The type of a width and a sign: int and the absence of a sign add nothing. */
  function TypeOf(w: Width, g: Sign): Kind {
    match w
    case AChar => if g == IsUnsigned then UnsignedChar else SignedChar
    case AShort | AShortInt => if g == IsUnsigned then UnsignedShort else SignedShort
    case NoWidth | AnInt => if g == IsUnsigned then UnsignedInt else SignedInt
    case ALong | ALongInt => if g == IsUnsigned then UnsignedLong else SignedLong
    case ALongLong | ALongLongInt => if g == IsUnsigned then UnsignedLongLong else SignedLongLong
  }

  /**
    * A list of arithmetic specifiers is accepted exactly when they name a width and at most one
    * sign, and then has their type.
    */
  lemma {:induction false} NormalType(l: seq<Kind>, pesudoEnd: bool)
    requires Specifiers(l) && (l != [] || pesudoEnd) && !Misread(l) && Others(multiset(l)) == 0
    ensures var m := multiset(l);
            match (WidthOf(m[Char], m[Short], m[Int], m[Long]), SignOf(m[Signed], m[Unsigned]))
            case (Some(w), Some(g)) =>
              Fold(l, pesudoEnd).Some? && Normalize(Fold(l, pesudoEnd).value) == Some(TypeOf(w, g))
            case _ => Fold(l, pesudoEnd) == None
  {
    hide Fold, Misread, WidthOf, SignOf, KindOf, Normalize, TypeOf;
    FoldIs(l, pesudoEnd);
    var m := multiset(l);
    match (WidthOf(m[Char], m[Short], m[Int], m[Long]), SignOf(m[Signed], m[Unsigned]))
    case (Some(w), Some(g)) => KindsNormal(w, g);
    case _ =>
  }

  lemma {:induction false} KindsNormal(w: Width, g: Sign)
    ensures Normalize(KindOf(w, g)) == Some(TypeOf(w, g))
  {
  }

  lemma {:induction false} NotPesudo(l: seq<Kind>, pesudoEnd: bool)
    requires Specifiers(l) && l != []
    ensures Fold(l, pesudoEnd) != Some(Pesudo)
  {
    CombinesToNone(l[0]);
    hide Combine;
  }

  lemma {:induction false} CombinesToNone(k: Kind)
    requires Specifier(k)
    ensures forall r :: Combine(k, r) != Some(Pesudo)
    ensures Alone(k) ==> forall r :: r != Pesudo ==> Combine(k, r) == None
    ensures !Alone(k) ==> forall r :: Alone(r) ==> Combine(k, r) == None
    ensures Alone(k) ==> Combine(k, Pesudo) == Some(k) && Normalize(k) == Some(k)
  {
  }

  /** Void, float, double, structs, unions and enumerations stand alone, and are their own normal type. */
  lemma {:induction false} OthersStay(l: seq<Kind>, pesudoEnd: bool)
    requires Specifiers(l) && exists i :: 0 <= i < |l| && Alone(l[i])
    ensures if |l| == 1 then Fold(l, pesudoEnd) == Some(l[0]) && Normalize(l[0]) == Some(l[0])
            else Fold(l, pesudoEnd) == None
    decreases |l|
  {
    var i :| 0 <= i < |l| && Alone(l[i]);
    assert Specifier(l[0]);
    CombinesToNone(l[0]);
    hide Combine, Normalize, Alone;
    var rest := l[1..];
    if rest != [] {
      assert forall j :: 0 <= j < |rest| ==> rest[j] == l[j + 1];
      NotPesudo(rest, pesudoEnd);
      if i > 0 {
        assert Alone(rest[i - 1]);
        OthersStay(rest, pesudoEnd);
      }
    }
  }
}
