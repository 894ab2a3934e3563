// Whole launches: what the groups write, in whatever order their items run, and what the host makes of it.
module Launches {
  import opened Partition
  import opened Kernel

  datatype Move = Move(group: nat, item: nat)

  predicate CanRun(p: Launch, s: State, moves: seq<Move>)
    decreases |moves|
  {
    moves == [] ||
    (Enabled(p, s, moves[0].group, moves[0].item) &&
     CanRun(p, Act(p, s, moves[0].group, moves[0].item), moves[1..]))
  }

  function Run(p: Launch, s: State, moves: seq<Move>): State
    requires CanRun(p, s, moves)
    decreases |moves|
  {
    if moves == [] then s else Run(p, Act(p, s, moves[0].group, moves[0].item), moves[1..])
  }

  ghost predicate StateOk(p: Launch, s: State)
    requires |p.input| == p.ni * p.stride
  {
    |s| * WS == p.stride && forall g :: 0 <= g < |s| ==> (g + 1) * WS <= p.stride && GroupOk(p, g, s[g])
  }

  /** The launch is well formed: sizes that divide, a positive loop count, and counters that cannot wrap. */
  ghost predicate Proper(p: Launch) {
    Sized(p) && Fits(p) && p.nk > 0
  }

  lemma {:induction false} StartOk(p: Launch, s: State)
    requires Proper(p) && Init(p, s)
    ensures StateOk(p, s)
  {
    hide Fits;
    forall g | 0 <= g < |s|
      ensures (g + 1) * WS <= p.stride && GroupOk(p, g, s[g])
    {
      forall l | 0 <= l < WS
        ensures g * WS + l < p.stride && ItemOk(p, g * WS + l, s[g].items[l])
      {
      }
    }
  }

  lemma {:induction false} StepOk(p: Launch, s: State, m: Move)
    requires Proper(p) && StateOk(p, s) && Enabled(p, s, m.group, m.item)
    ensures StateOk(p, Act(p, s, m.group, m.item))
  {
    hide Fits, GroupOk, ActIn;
    ItemsOf(p, m.group, s[m.group]);
    GroupStep(p, s[m.group], m.item, m.group);
  }

  lemma {:induction false} ItemsOf(p: Launch, g: nat, group: Group)
    requires |p.input| == p.ni * p.stride && (g + 1) * WS <= p.stride && GroupOk(p, g, group)
    ensures |group.items| == WS
  {
  }

  lemma {:induction false} RunOk(p: Launch, s: State, moves: seq<Move>)
    requires Proper(p) && StateOk(p, s) && CanRun(p, s, moves)
    ensures StateOk(p, Run(p, s, moves))
    decreases |moves|
  {
    hide Proper, StateOk, Enabled, Act;
    if moves != [] {
      StepOk(p, s, moves[0]);
      RunOk(p, Act(p, s, moves[0].group, moves[0].item), moves[1..]);
    }
  }

  ghost predicate AllFinished(s: State) {
    forall g :: 0 <= g < |s| ==> forall l :: 0 <= l < |s[g].items| ==> s[g].items[l] == Finished
  }

  function Outs(s: State, n: nat): nat
    requires n <= |s|
  {
    if n == 0 then 0 else Outs(s, n - 1) + s[n - 1].out
  }

  /** The groups' parts are the parts of their items. */
  lemma {:induction false} GroupIsParts(p: Launch, g: nat, n: nat)
    requires |p.input| == p.ni * p.stride && (g + 1) * WS <= p.stride && n <= WS
    ensures g * WS + n <= p.stride
    ensures PartsUpTo(p, g * WS, p.ni) + GroupParts(p, g, n) == PartsUpTo(p, g * WS + n, p.ni)
    decreases n
  {
    hide Part;
    if n > 0 {
      GroupIsParts(p, g, n - 1);
      InGroup(p, g, n - 1);
    }
  }

  lemma {:induction false} OutsAreParts(p: Launch, s: State, n: nat)
    requires |p.input| == p.ni * p.stride && StateOk(p, s) && AllFinished(s) && n <= |s|
    ensures n * WS <= p.stride && Outs(s, n) == PartsUpTo(p, n * WS, p.ni)
    decreases n
  {
    hide Part, AddedUpTo, PartsUpTo, GroupParts;
    if n > 0 {
      OutsAreParts(p, s, n - 1);
      assert GroupOk(p, n - 1, s[n - 1]);
      assert s[n - 1].items[0] == Finished;
      GroupIsParts(p, n - 1, WS);
    } else {
      NoItems(p);
    }
  }

  lemma {:induction false} NoItems(p: Launch)
    requires |p.input| == p.ni * p.stride
    ensures PartsUpTo(p, 0, p.ni) == 0
  {
  }

  /**
    * For every buffer and every interleaving of the work items, barriers and atomic adds included: once all items
    * have finished, the groups' results add up to the number of 32-bit words equal to val.
    */
  lemma {:induction false} ResultsAddUp(p: Launch, start: State, moves: seq<Move>)
    requires Proper(p) && Init(p, start) && CanRun(p, start, moves) && AllFinished(Run(p, start, moves))
    ensures var s := Run(p, start, moves); Outs(s, |s|) == CountUpTo(p.input, p.val, |p.input|)
    ensures CountUpTo(p.input, p.val, |p.input|) == Occurrences(p.input, p.val)
  {
    CountIsOccurrences(p.input, p.val, |p.input|);
    assert p.input[..|p.input|] == p.input;
    hide GroupOk, Part, PartsUpTo, CountUpTo, Fits, AllFinished;
    StartOk(p, start);
    RunOk(p, start, moves);
    var s := Run(p, start, moves);
    OutsAreParts(p, s, |s|);
    Rounds(p, p.ni);
  }

  /** No barrier holds a group up for ever: until all items have finished some item can go on. */
  lemma {:induction false} NeverStuck(p: Launch, s: State, g: nat, l: nat)
    requires Proper(p) && StateOk(p, s) && g < |s| && l < |s[g].items| && s[g].items[l] != Finished
    ensures exists k :: Enabled(p, s, g, k)
  {
    hide Fits, GroupOk;
    ItemsOf(p, g, s[g]);
    if !Enabled(p, s, g, l) {
      if s[g].items[l].AtFirst? {
        var k :| 0 <= k < |s[g].items| && s[g].items[k] == Start;
        assert Enabled(p, s, g, k);
      } else {
        var k :| 0 <= k < |s[g].items| && !Added(s[g].items[k]);
        if s[g].items[k].AtFirst? && !AllArrived(s[g]) {
          var j :| 0 <= j < |s[g].items| && s[g].items[j] == Start;
          assert Enabled(p, s, g, j);
        } else {
          assert Enabled(p, s, g, k);
        }
      }
    }
  }

  // ----- runs end -----

  /** How many steps the loops have left, of nk passes over ni vectors. */
  function LoopLeft(p: Launch, n: nat, i: nat): nat {
    if n >= p.nk then 1
    else
      MulMono(0, p.nk - n - 1, p.ni + 1);
      (p.nk - n - 1) * (p.ni + 1) + (if i <= p.ni then p.ni + 1 - i else 1) + 1
  }

  /** How many steps an item has left. */
  function StepsLeft(p: Launch, pc: Pc): nat {
    match pc
    case Start => if p.nk == 0 then 1 else LoopLeft(p, 0, 0) + 5
    case AtFirst => LoopLeft(p, 0, 0) + 4
    case Looping(n, i, _) => LoopLeft(p, n, i) + 3
    case Adding(_) => 3
    case AtSecond => 2
    case Writing => 1
    case Finished => 0
  }

  function GroupLeft(p: Launch, items: seq<Pc>): nat {
    if items == [] then 0 else StepsLeft(p, items[0]) + GroupLeft(p, items[1..])
  }

  function AllLeft(p: Launch, s: State): nat {
    if s == [] then 0 else GroupLeft(p, s[0].items) + AllLeft(p, s[1..])
  }

  lemma {:induction false} ItemMoved(p: Launch, items: seq<Pc>, l: nat, pc: Pc)
    requires l < |items|
    ensures GroupLeft(p, items[l := pc]) - GroupLeft(p, items) == StepsLeft(p, pc) - StepsLeft(p, items[l])
    decreases l
  {
    hide StepsLeft;
    if l > 0 {
      assert items[l := pc][1..] == items[1..][l - 1 := pc];
      ItemMoved(p, items[1..], l - 1, pc);
    }
  }

  lemma {:induction false} GroupMoved(p: Launch, s: State, g: nat, group: Group)
    requires g < |s|
    ensures AllLeft(p, s[g := group]) - AllLeft(p, s) == GroupLeft(p, group.items) - GroupLeft(p, s[g].items)
    decreases g
  {
    hide GroupLeft;
    if g > 0 {
      assert s[g := group][1..] == s[1..][g - 1 := group];
      GroupMoved(p, s[1..], g - 1, group);
    }
  }

  /** A step of an item that has not finished changes its place only, and leaves it one step less. */
  lemma {:induction false} OneStepLess(p: Launch, group: Group, l: nat, gid: nat)
    requires l < |group.items| && group.items[l] != Finished
    ensures var pc := ActIn(p, group, l, gid).items[l];
            ActIn(p, group, l, gid).items == group.items[l := pc] &&
            StepsLeft(p, pc) + 1 == StepsLeft(p, group.items[l])
  {
    var pc := group.items[l];
    if pc.Looping? && pc.n + 1 < p.nk {
      assert (p.nk - pc.n - 1) * (p.ni + 1) == (p.nk - pc.n - 2) * (p.ni + 1) + (p.ni + 1);
    }
  }

  /** For every input and every schedule: the steps made and the steps left are together what they were. */
  lemma {:induction false} RunsEnd(p: Launch, s: State, moves: seq<Move>)
    requires CanRun(p, s, moves)
    ensures |moves| + AllLeft(p, Run(p, s, moves)) == AllLeft(p, s)
    decreases |moves|
  {
    hide StepsLeft, GroupLeft, AllLeft, ActIn;
    if moves != [] {
      var m := moves[0];
      var group := ActIn(p, s[m.group], m.item, m.group * WS + m.item);
      OneStepLess(p, s[m.group], m.item, m.group * WS + m.item);
      ItemMoved(p, s[m.group].items, m.item, group.items[m.item]);
      GroupMoved(p, s, m.group, group);
      RunsEnd(p, Act(p, s, m.group, m.item), moves[1..]);
    }
  }

  /** A launch that no item can go on with has finished, and its results add up. */
  lemma {:induction false} StoppedAddsUp(p: Launch, start: State, moves: seq<Move>)
    requires Proper(p) && Init(p, start) && CanRun(p, start, moves)
    requires forall g, l :: !Enabled(p, Run(p, start, moves), g, l)
    ensures var s := Run(p, start, moves); AllFinished(s) && Outs(s, |s|) == CountUpTo(p.input, p.val, |p.input|)
  {
    hide StateOk, Proper, Init, CanRun, Run, Outs, CountUpTo, Enabled;
    StartOk(p, start);
    RunOk(p, start, moves);
    var s := Run(p, start, moves);
    forall g, l | 0 <= g < |s| && 0 <= l < |s[g].items|
      ensures s[g].items[l] == Finished
    {
      if s[g].items[l] != Finished {
        NeverStuck(p, s, g, l);
      }
    }
    ResultsAddUp(p, start, moves);
  }

  /** With a loop count of zero no step of any item writes anything. */
  lemma {:induction false} NoLoopsNoWrite(p: Launch, s: State, moves: seq<Move>)
    requires p.nk == 0 && CanRun(p, s, moves)
    requires forall g, l :: 0 <= g < |s| && 0 <= l < |s[g].items| ==> s[g].items[l] in {Start, Finished}
    ensures var s' := Run(p, s, moves);
            |s'| == |s| && forall g :: 0 <= g < |s| ==> s'[g].out == s[g].out && s'[g].lcount == s[g].lcount
    decreases |moves|
  {
    if moves != [] {
      NoLoopsNoWrite(p, Act(p, s, moves[0].group, moves[0].item), moves[1..]);
    }
  }

  // ----- the host's check -----

  /** The loop of timedReadKernelVerify over the groups' results, in 32 bits. */
  method SumResults(s: State) returns (sum: nat)
    ensures sum == Outs(s, |s|) % UINT
  {
    sum := 0;
    var i := 0;
    while i < |s|
      invariant 0 <= i <= |s|
      invariant sum == Outs(s, i) % UINT
    {
      WrapAdd(Outs(s, i), s[i].out);
      sum := (sum + s[i].out) % UINT;
      i := i + 1;
    }
  }

  lemma {:induction false} WrapAdd(a: nat, b: nat)
    ensures (a % UINT + b) % UINT == (a + b) % UINT
  {
    var q, r := a / UINT, a % UINT;
    var q', r' := (r + b) / UINT, (r + b) % UINT;
    assert a + b == (q + q') * UINT + r';
    ModUnique(q + q', r', UINT);
  }

  ghost predicate AllWords(input: seq<Vec4>, val: nat, n: nat)
    requires n <= |input|
  {
    forall i :: 0 <= i < n ==> input[i] == Vec4(val, val, val, val)
  }

  lemma {:induction false} FullCount(input: seq<Vec4>, val: nat, n: nat)
    requires n <= |input|
    ensures CountUpTo(input, val, n) == 4 * n <==> AllWords(input, val, n)
    decreases n
  {
    if n > 0 {
      FullCount(input, val, n - 1);
    }
  }

  /** The check passes exactly when every word of the buffer is val. */
  lemma {:induction false} VerifyExactly(p: Launch, start: State, moves: seq<Move>, nBytes: nat)
    requires Proper(p) && Init(p, start) && CanRun(p, start, moves) && AllFinished(Run(p, start, moves))
    requires nBytes == |p.input| * ITEM && nBytes < UINT
    ensures var s := Run(p, start, moves);
            Outs(s, |s|) % UINT == nBytes / WORD <==> AllWords(p.input, p.val, |p.input|)
  {
    hide Proper, Init, CanRun, Run, AllFinished, Outs, CountUpTo, Occurrences;
    ResultsAddUp(p, start, moves);
    FullCount(p.input, p.val, |p.input|);
    CountBound(p.input, p.val, |p.input|);
  }

  lemma {:induction false} CountBound(input: seq<Vec4>, val: nat, n: nat)
    requires n <= |input|
    ensures CountUpTo(input, val, n) <= 4 * n
  {
  }

  /** The sizes computeGlobals chooses make a launch whose strided loops cover the buffer. */
  lemma {:induction false} SizesFit(input: seq<Vec4>, val: nat, nk: nat, nBytes: int, nItems: int, nThreads: int)
    requires GoodSizes(nBytes, nItems, nThreads) && |input| == nItems
    ensures Sized(Launch(input, val, nItems / nThreads, nk, nThreads))
  {
    assert nItems == nItems / nThreads * nThreads;
  }
}
