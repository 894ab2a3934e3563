// The read kernel under every interleaving of its work items, and the host's check of its result.
module Kernel {
  import opened Partition

  const UINT: nat := 0x1_0000_0000

  datatype Vec4 = Vec4(x: nat, y: nat, z: nat, w: nat)

  /** How many of a vector's words are val. */
  function Matches(v: Vec4, val: nat): (n: nat)
    ensures n <= 4
  {
    (if v.x == val then 1 else 0) + (if v.y == val then 1 else 0) +
    (if v.z == val then 1 else 0) + (if v.w == val then 1 else 0)
  }

  /** The words of the first n vectors that are val. */
  function CountUpTo(input: seq<Vec4>, val: nat, n: nat): (c: nat)
    requires n <= |input|
    ensures c <= 4 * n
  {
    if n == 0 then 0 else CountUpTo(input, val, n - 1) + Matches(input[n - 1], val)
  }

  /** The buffer's words in order. */
  function Words(input: seq<Vec4>): seq<nat> {
    if input == [] then []
    else
      var v := input[|input| - 1];
      Words(input[..|input| - 1]) + [v.x, v.y, v.z, v.w]
  }

  function Times(l: seq<nat>, val: nat): nat {
    multiset(l)[val]
  }

  /** How often val occurs among the words. */
  function Occurrences(input: seq<Vec4>, val: nat): nat {
    Times(Words(input), val)
  }

  lemma {:induction false} OneWord(w: nat, val: nat)
    ensures Times([w], val) == if w == val then 1 else 0
  {
  }

  lemma {:induction false} TimesAppend(a: seq<nat>, b: seq<nat>, val: nat)
    ensures Times(a + b, val) == Times(a, val) + Times(b, val)
  {
    assert multiset(a + b) == multiset(a) + multiset(b);
  }

  lemma {:induction false} FourWords(v: Vec4, val: nat)
    ensures Times([v.x, v.y, v.z, v.w], val) == Matches(v, val)
  {
    hide Times;
    OneWord(v.x, val);
    OneWord(v.y, val);
    OneWord(v.z, val);
    OneWord(v.w, val);
    TimesAppend([v.x], [v.y], val);
    TimesAppend([v.z], [v.w], val);
    TimesAppend([v.x] + [v.y], [v.z] + [v.w], val);
    assert ([v.x] + [v.y]) + ([v.z] + [v.w]) == [v.x, v.y, v.z, v.w];
  }

  lemma {:induction false} NoOccurrence(val: nat)
    ensures Occurrences([], val) == 0
  {
  }

  lemma {:induction false} OneVector(rest: seq<Vec4>, v: Vec4, val: nat)
    ensures Occurrences(rest + [v], val) == Occurrences(rest, val) + Matches(v, val)
  {
    hide Times;
    assert (rest + [v])[..|rest|] == rest;
    TimesAppend(Words(rest), [v.x, v.y, v.z, v.w], val);
    FourWords(v, val);
  }

  /** The count is how often val occurs among the words. */
  lemma {:induction false} CountIsOccurrences(input: seq<Vec4>, val: nat, n: nat)
    requires n <= |input|
    ensures CountUpTo(input, val, n) == Occurrences(input[..n], val)
    decreases n
  {
    hide Occurrences, Matches;
    if n > 0 {
      CountIsOccurrences(input, val, n - 1);
      assert input[..n] == input[..n - 1] + [input[n - 1]];
      OneVector(input[..n - 1], input[n - 1], val);
    } else {
      NoOccurrence(val);
    }
  }

  /**
    * What the launch gives the kernel: `stride` is the number of work items in all, `ni` how many
    * vectors each reads.
    */
  datatype Launch = Launch(input: seq<Vec4>, val: nat, ni: nat, nk: nat, stride: nat)

  ghost predicate Sized(p: Launch) {
    && p.stride > 0 && p.stride % WS == 0 && |p.input| == p.ni * p.stride && p.ni > 0
  }

  lemma {:induction false} InRange(p: Launch, i: nat, gid: nat)
    requires |p.input| == p.ni * p.stride && i < p.ni && gid < p.stride
    ensures gid + i * p.stride < |p.input|
  {
    MulMono(i + 1, p.ni, p.stride);
    assert (i + 1) * p.stride == i * p.stride + p.stride;
  }

  /** What one pass over its first i vectors adds to a work item's count. */
  function Part(p: Launch, gid: nat, i: nat): (c: nat)
    requires |p.input| == p.ni * p.stride && gid < p.stride && i <= p.ni
    ensures c <= 4 * i
  {
    if i == 0 then 0
    else
      InRange(p, i - 1, gid);
      Part(p, gid, i - 1) + Matches(p.input[gid + (i - 1) * p.stride], p.val)
  }

  // ----- the strided loops visit every vector exactly once -----

  /** The parts of the first n work items after i vectors each. */
  function PartsUpTo(p: Launch, n: nat, i: nat): nat
    requires |p.input| == p.ni * p.stride && n <= p.stride && i <= p.ni
    decreases n
  {
    if n == 0 then 0 else PartsUpTo(p, n - 1, i) + Part(p, n - 1, i)
  }

  /** One more round: the first n work items read vectors i * stride to i * stride + n. */
  lemma {:induction false} OneRound(p: Launch, n: nat, i: nat)
    requires |p.input| == p.ni * p.stride && n <= p.stride && i < p.ni
    ensures i * p.stride + n <= |p.input|
    ensures PartsUpTo(p, n, i + 1) - PartsUpTo(p, n, i) ==
            CountUpTo(p.input, p.val, i * p.stride + n) - CountUpTo(p.input, p.val, i * p.stride)
    decreases n
  {
    MulMono(i + 1, p.ni, p.stride);
    assert (i + 1) * p.stride == i * p.stride + p.stride;
    if n > 0 {
      OneRound(p, n - 1, i);
      InRange(p, i, n - 1);
    }
  }

  /** After i rounds all work items together have read the first i * stride vectors once each. */
  lemma {:induction false} Rounds(p: Launch, i: nat)
    requires |p.input| == p.ni * p.stride && i <= p.ni
    ensures i * p.stride <= |p.input|
    ensures PartsUpTo(p, p.stride, i) == CountUpTo(p.input, p.val, i * p.stride)
    decreases i
  {
    MulMono(i, p.ni, p.stride);
    if i == 0 {
      NoParts(p, p.stride);
    } else {
      Rounds(p, i - 1);
      OneRound(p, p.stride, i - 1);
      assert (i - 1) * p.stride + p.stride == i * p.stride;
    }
  }

  lemma {:induction false} NoParts(p: Launch, n: nat)
    requires |p.input| == p.ni * p.stride && n <= p.stride
    ensures PartsUpTo(p, n, 0) == 0
    decreases n
  {
    if n > 0 {
      NoParts(p, n - 1);
    }
  }

  /** Each vector is read by exactly one work item, in exactly one round of a pass. */
  lemma {:induction false} VisitedOnce(p: Launch, k: nat, gid: nat, i: nat)
    requires Sized(p) && k < |p.input|
    ensures gid < p.stride && i < p.ni && gid + i * p.stride == k <==> gid == k % p.stride && i == k / p.stride
  {
    var q, r := k / p.stride, k % p.stride;
    assert q * p.stride + r == k;
    if q >= p.ni {
      MulMono(p.ni, q, p.stride);
    }
    if gid < p.stride && gid + i * p.stride == k {
      ModUnique(i, gid, p.stride);
      SameQuotient(i, q, p.stride);
    }
  }

  lemma {:induction false} SameQuotient(a: int, b: int, d: int)
    requires a * d == b * d && d > 0
    ensures a == b
  {
    if a < b {
      MulMono(a + 1, b, d);
    } else if b < a {
      MulMono(b + 1, a, d);
    }
  }

  // ----- the machine -----

  /** A work item: before the first barrier, in the loops, before and after the atomic add, past the second barrier. */
  datatype Pc =
    | Start
    | AtFirst
    | Looping(n: nat, i: nat, pcount: nat)
    | Adding(pcount: nat)
    | AtSecond
    | Writing
    | Finished

  datatype Group = Group(items: seq<Pc>, lcount: nat, out: nat)

  type State = seq<Group>

  /** lcount and out hold anything before the kernel writes them. */
  ghost predicate Init(p: Launch, s: State) {
    && |s| * WS == p.stride
    && forall g :: 0 <= g < |s| ==> |s[g].items| == WS && forall l :: 0 <= l < WS ==> s[g].items[l] == Start
  }

  /** A barrier lets an item pass once every item of the group has come to it. */
  predicate AllArrived(group: Group) {
    forall l :: 0 <= l < |group.items| ==> group.items[l] != Start
  }

  predicate AllAdded(group: Group) {
    forall l :: 0 <= l < |group.items| ==> Added(group.items[l])
  }

  predicate Added(pc: Pc) {
    pc.AtSecond? || pc.Writing? || pc.Finished?
  }

  predicate Enabled(p: Launch, s: State, g: nat, l: nat) {
    g < |s| && l < |s[g].items| &&
    match s[g].items[l]
    case AtFirst => AllArrived(s[g])
    case AtSecond => AllAdded(s[g])
    case Finished => false
    case _ => true
  }

  function Goto(group: Group, l: nat, pc: Pc): Group
    requires l < |group.items|
  {
    group.(items := group.items[l := pc])
  }

  /** One step of item l of a group, whose number among all items is gid. */
  function ActIn(p: Launch, group: Group, l: nat, gid: nat): Group
    requires l < |group.items|
  {
    match group.items[l]
    case Start =>
      if p.nk == 0 then Goto(group, l, Finished)
      else Goto(if l == 0 then group.(lcount := 0) else group, l, AtFirst)
    case AtFirst => Goto(group, l, Looping(0, 0, 0))
    case Looping(n, i, pcount) =>
      if n >= p.nk then Goto(group, l, Adding(pcount))
      else if i >= p.ni then Goto(group, l, Looping(n + 1, 0, pcount))
      else
        var idx := gid + i * p.stride;
        var found := if idx < |p.input| then Matches(p.input[idx], p.val) else 0;
        Goto(group, l, Looping(n, i + 1, (pcount + found) % UINT))
    case Adding(pcount) => Goto(group.(lcount := (group.lcount + pcount) % UINT), l, AtSecond)
    case AtSecond => Goto(group, l, Writing)
    case Writing =>
      Goto(if l == 0 && p.nk > 0 then group.(out := group.lcount / p.nk) else group, l, Finished)
    case Finished => group
  }

  function Act(p: Launch, s: State, g: nat, l: nat): State
    requires Enabled(p, s, g, l)
  {
    s[g := ActIn(p, s[g], l, g * WS + l)]
  }

  // ----- the invariant of a group -----

  /** The arguments fit: no 32-bit counter of the kernel can wrap. */
  ghost predicate Fits(p: Launch) {
    p.nk * (4 * p.ni) * WS < UINT
  }

  /** What item l of group g adds to lcount. */
  function Share(p: Launch, g: nat, l: nat): nat
    requires |p.input| == p.ni * p.stride && g * WS + l < p.stride
  {
    p.nk * Part(p, g * WS + l, p.ni)
  }

  ghost predicate ItemOk(p: Launch, gid: nat, pc: Pc)
    requires |p.input| == p.ni * p.stride && gid < p.stride
  {
    match pc
    case Looping(n, i, pcount) =>
      n <= p.nk && i <= p.ni && (n == p.nk ==> i == 0) && pcount == n * Part(p, gid, p.ni) + Part(p, gid, i)
    case Adding(pcount) => pcount == p.nk * Part(p, gid, p.ni)
    case _ => true
  }

  /** The shares of the first n items that have been added. */
  function AddedUpTo(p: Launch, g: nat, items: seq<Pc>, n: nat): nat
    requires |p.input| == p.ni * p.stride && (g + 1) * WS <= p.stride && n <= |items| <= WS
    decreases n
  {
    if n == 0 then 0
    else
      InGroup(p, g, n - 1);
      AddedUpTo(p, g, items, n - 1) + (if Added(items[n - 1]) then Share(p, g, n - 1) else 0)
  }

  lemma {:induction false} InGroup(p: Launch, g: nat, l: nat)
    requires (g + 1) * WS <= p.stride && l < WS
    ensures g * WS + l < p.stride
  {
  }

  /** The result a group owes: the shares of all its items, each counted once. */
  function GroupParts(p: Launch, g: nat, n: nat): nat
    requires |p.input| == p.ni * p.stride && (g + 1) * WS <= p.stride && n <= WS
    decreases n
  {
    if n == 0 then 0
    else
      InGroup(p, g, n - 1);
      GroupParts(p, g, n - 1) + Part(p, g * WS + (n - 1), p.ni)
  }

  ghost predicate GroupOk(p: Launch, g: nat, group: Group)
    requires |p.input| == p.ni * p.stride && (g + 1) * WS <= p.stride
  {
    && |group.items| == WS
    && (forall l :: 0 <= l < WS ==> g * WS + l < p.stride && ItemOk(p, g * WS + l, group.items[l]))
    && (group.items[0] == Start ==> forall l :: 0 <= l < WS ==> group.items[l] in {Start, AtFirst})
    && ((exists l :: 0 <= l < WS && (group.items[l].Writing? || group.items[l].Finished?)) ==> AllAdded(group))
    && (group.items[0] != Start ==> group.lcount == AddedUpTo(p, g, group.items, WS))
    && (group.items[0] == Finished ==> group.out == GroupParts(p, g, WS))
  }

  // ----- every step keeps it -----

  lemma {:induction false} AddedChange(p: Launch, g: nat, items: seq<Pc>, n: nat, l: nat, pc: Pc)
    requires |p.input| == p.ni * p.stride && (g + 1) * WS <= p.stride && n <= |items| <= WS && l < |items|
    ensures l < WS && g * WS + l < p.stride
    ensures AddedUpTo(p, g, items[l := pc], n) ==
            AddedUpTo(p, g, items, n) +
            (if l < n && Added(pc) && !Added(items[l]) then Share(p, g, l) else 0) -
            (if l < n && !Added(pc) && Added(items[l]) then Share(p, g, l) else 0)
    decreases n
  {
    InGroup(p, g, l);
    if n > 0 {
      AddedChange(p, g, items, n - 1, l, pc);
    }
  }

  lemma {:induction false} NoneAdded(p: Launch, g: nat, items: seq<Pc>, n: nat)
    requires |p.input| == p.ni * p.stride && (g + 1) * WS <= p.stride && n <= |items| <= WS
    requires forall l :: 0 <= l < n ==> !Added(items[l])
    ensures AddedUpTo(p, g, items, n) == 0
    decreases n
  {
    if n > 0 {
      NoneAdded(p, g, items, n - 1);
    }
  }

  lemma {:induction false} AllShares(p: Launch, g: nat, items: seq<Pc>, n: nat)
    requires |p.input| == p.ni * p.stride && (g + 1) * WS <= p.stride && n <= |items| <= WS
    requires forall l :: 0 <= l < n ==> Added(items[l])
    ensures AddedUpTo(p, g, items, n) == p.nk * GroupParts(p, g, n)
    decreases n
  {
    hide Part;
    if n > 0 {
      AllShares(p, g, items, n - 1);
      InGroup(p, g, n - 1);
      Distribute(p.nk, GroupParts(p, g, n - 1), Part(p, g * WS + (n - 1), p.ni));
    }
  }

  lemma {:induction false} Distribute(k: int, a: int, b: int)
    ensures k * (a + b) == k * a + k * b
  {
  }

  /** Counters of the kernel stay below 2^32. */
  lemma {:induction false} AddedSmall(p: Launch, g: nat, items: seq<Pc>, n: nat)
    requires |p.input| == p.ni * p.stride && (g + 1) * WS <= p.stride && n <= |items| <= WS
    ensures AddedUpTo(p, g, items, n) <= p.nk * (4 * p.ni) * n
    decreases n
  {
    if n > 0 {
      AddedSmall(p, g, items, n - 1);
      InGroup(p, g, n - 1);
      MulMono(Part(p, g * WS + (n - 1), p.ni), 4 * p.ni, p.nk);
      assert p.nk * (4 * p.ni) * n == p.nk * (4 * p.ni) * (n - 1) + p.nk * (4 * p.ni);
    }
  }

  lemma {:induction false} Bounded(n: nat, c: nat, m: nat, q: nat, k: nat)
    requires c <= m && q <= m && (n < k || (n == k && q == 0))
    ensures n * c + q <= k * m
  {
    MulMono(c, m, n);
    if n < k {
      MulMono(n + 1, k, m);
      Distribute(m, n, 1);
    }
  }

  lemma {:induction false} ShareSmall(p: Launch, gid: nat, n: nat, i: nat)
    requires |p.input| == p.ni * p.stride && gid < p.stride && Fits(p) && i <= p.ni &&
             (n < p.nk || (n == p.nk && i == 0))
    ensures n * Part(p, gid, p.ni) + Part(p, gid, i) < UINT
  {
    Bounded(n, Part(p, gid, p.ni), 4 * p.ni, Part(p, gid, i), p.nk);
  }

  lemma {:induction false} LoopStep(p: Launch, gid: nat, n: nat, i: nat, pcount: nat)
    requires Sized(p) && Fits(p) && gid < p.stride && n < p.nk
    requires ItemOk(p, gid, Looping(n, i, pcount))
    ensures i < p.ni ==>
      gid + i * p.stride < |p.input| &&
      ItemOk(p, gid, Looping(n, i + 1, (pcount + Matches(p.input[gid + i * p.stride], p.val)) % UINT))
    ensures i >= p.ni ==> ItemOk(p, gid, Looping(n + 1, 0, pcount))
  {
    hide Matches, Fits;
    if i < p.ni {
      InRange(p, i, gid);
      ShareSmall(p, gid, n, i + 1);
    } else {
      Distribute(Part(p, gid, p.ni), n, 1);
    }
  }

  /** The moved item of a group, and what becomes of lcount and out. */
  lemma {:induction false} MovedItem(p: Launch, group: Group, l: nat, g: nat)
    requires Sized(p) && Fits(p) && p.nk > 0 && (g + 1) * WS <= p.stride && GroupOk(p, g, group) && l < WS
    requires group.items[l].AtFirst? ==> AllArrived(group)
    ensures g * WS + l < p.stride
    ensures ItemOk(p, g * WS + l, ActIn(p, group, l, g * WS + l).items[l])
  {
    hide Matches, AddedUpTo, GroupParts, Fits;
    var gid := g * WS + l;
    InGroup(p, g, l);
    assert ItemOk(p, gid, group.items[l]);
    match group.items[l]
    case Looping(n, i, pcount) =>
      if n < p.nk {
        LoopStep(p, gid, n, i, pcount);
      }
    case _ =>
  }

  lemma {:induction false} CountStep(p: Launch, group: Group, l: nat, g: nat)
    requires Sized(p) && Fits(p) && p.nk > 0 && (g + 1) * WS <= p.stride && GroupOk(p, g, group) && l < WS
    requires group.items[l].AtFirst? ==> AllArrived(group)
    ensures var group' := ActIn(p, group, l, g * WS + l);
            group'.items[0] != Start ==> group'.lcount == AddedUpTo(p, g, group'.items, WS)
  {
    hide Matches, AddedUpTo, GroupParts;
    var group' := ActIn(p, group, l, g * WS + l);
    var pc' := group'.items[l];
    InGroup(p, g, l);
    assert ItemOk(p, g * WS + l, group.items[l]);
    AddedChange(p, g, group.items, WS, l, pc');
    if group.items[l].Adding? {
      AddedSmall(p, g, group'.items, WS);
    }
    if l == 0 && group.items[0] == Start {
      NoneAdded(p, g, group'.items, WS);
    }
  }

  lemma {:induction false} ResultStep(p: Launch, group: Group, l: nat, g: nat)
    requires Sized(p) && p.nk > 0 && (g + 1) * WS <= p.stride && GroupOk(p, g, group) && l < WS
    ensures var group' := ActIn(p, group, l, g * WS + l);
            group'.items[0] == Finished ==> group'.out == GroupParts(p, g, WS)
  {
    hide Matches, AddedUpTo, GroupParts;
    if l == 0 && group.items[0] == Writing {
      AllShares(p, g, group.items, WS);
      ExactQuotient(p.nk, GroupParts(p, g, WS));
    }
  }

  lemma {:induction false} ExactQuotient(k: nat, n: nat)
    requires k > 0
    ensures k * n / k == n
  {
    SameQuotient(k * n / k, n, k) by {
      ModUnique(n, 0, k);
      assert k * n == n * k;
    }
  }

  lemma {:induction false} GroupStep(p: Launch, group: Group, l: nat, g: nat)
    requires Sized(p) && Fits(p) && p.nk > 0 && (g + 1) * WS <= p.stride && GroupOk(p, g, group) && l < WS
    requires group.items[l].AtFirst? ==> AllArrived(group)
    requires group.items[l].AtSecond? ==> AllAdded(group)
    requires group.items[l] != Finished
    ensures GroupOk(p, g, ActIn(p, group, l, g * WS + l))
  {
    hide Matches, AddedUpTo, GroupParts, Fits;
    MovedItem(p, group, l, g);
    CountStep(p, group, l, g);
    ResultStep(p, group, l, g);
  }
}
