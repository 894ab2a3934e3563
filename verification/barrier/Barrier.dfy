// What the barrier promises, for any number of threads, every interleaving and every number of calls.
module Barrier {
  import opened CondVar
  import opened CondVarInvariant
  import opened CondVarSafety

  // ----- safety -----

  /** When a thread has left its k-th call, every thread has entered its k-th call. */
  lemma NobodyLeavesEarly(s: State, t: Tid, u: Tid)
    requires Reachable(s) && t < |s.threads| && u < |s.threads|
    ensures s.threads[t].exits <= s.threads[u].entries
  {
    InvReachable(s);
    assert Round(s.threads[t], s.shared.generation) && Round(s.threads[u], s.shared.generation);
    assert Placed(s.shared, s.threads[u], u);
  }

  /** Two threads are never a full generation apart. */
  lemma NobodyRunsAhead(s: State, t: Tid, u: Tid)
    requires Reachable(s) && t < |s.threads| && u < |s.threads|
    ensures s.threads[t].entries <= s.threads[u].entries + 1
    ensures s.threads[t].exits <= s.threads[u].exits + 1
    ensures s.threads[t].entries <= s.threads[u].exits + 2
  {
    InvReachable(s);
    assert Round(s.threads[t], s.shared.generation) && Round(s.threads[u], s.shared.generation);
    assert Placed(s.shared, s.threads[t], t) && Placed(s.shared, s.threads[u], u);
  }

  /** The recorded lock count is the owner's depth, but for one enter or leave that is under way. */
  lemma LockCountIsDepth(s: State)
    requires Reachable(s)
    ensures s.shared.lock == Free ==> s.shared.nLockCount == 0
    ensures s.shared.lock.Held? ==>
      && s.shared.lock.owner < |s.threads|
      && var pc := s.threads[s.shared.lock.owner].pc;
      && s.shared.nLockCount ==
           s.shared.lock.depth
           - (if pc.Recording? || pc.Releasing? || pc.Restoring? || pc.Leaving? then 1 else 0)
           - (if pc.WaitChecking? || pc.WaitUntrying? || pc.EndChecking? || pc.EndUntrying? then 1 else 0)
  {
    InvReachable(s);
    if s.shared.lock.Held? {
      var o := s.shared.lock.owner;
      assert Placed(s.shared, s.threads[o], o);
    }
  }

  /** wait and endSynchronized never find that the caller does not hold the lock. */
  lemma NeverRefused(s: State, t: Tid)
    requires Reachable(s) && t < |s.threads|
    ensures !s.threads[t].pc.WaitRefusing? && !s.threads[t].pc.EndRefusing?
    ensures s.threads[t].pc.WaitTrying? || s.threads[t].pc.EndTrying? ==> s.shared.lock == Held(t, 1)
    ensures s.threads[t].pc.WaitChecking? || s.threads[t].pc.EndChecking? ==> s.shared.nLockCount > 0
  {
    InvReachable(s);
    assert Placed(s.shared, s.threads[t], t);
  }

  /** A lock and its count as they are between the steps of one call. */
  predicate Settled(g: Shared) {
    match g.lock
    case Free => g.nLockCount == 0
    case Held(_, depth) => depth > 0 && g.nLockCount == depth
  }

  predicate Testing(pc: Pc, atEnd: bool) {
    if atEnd then pc.EndTrying? || pc.EndChecking? || pc.EndRefusing? || pc.EndUntrying?
    else pc.WaitTrying? || pc.WaitChecking? || pc.WaitRefusing? || pc.WaitUntrying?
  }

  /** At most n steps of one thread by itself, for as long as it is testing whether it holds the lock. */
  function Tested(g: Shared, th: Thread, t: Tid, h: Handle, atEnd: bool, n: nat): Moved
    decreases n
  {
    if n == 0 || !Testing(th.pc, atEnd) then Moved(g, th)
    else
      var r := Act(g, th, t, h);
      Tested(r.shared, r.thread, t, h, atEnd, n - 1)
  }

  /**
    * Whoever calls: from any settled state wait goes on exactly if the caller holds the lock, and otherwise returns
    * with everything as it was.
    */
  lemma WaitRefusesExactly(g: Shared, th: Thread, t: Tid, h: Handle)
    requires Settled(g) && th.pc.WaitTrying?
    ensures Tested(g, th, t, h, false, 3) ==
            Moved(g, th.(pc := if g.lock.Held? && g.lock.owner == t then Creating else EndTrying))
  {
  }

  /** endSynchronized likewise goes on to leave the lock exactly if the caller holds it. */
  lemma EndRefusesExactly(g: Shared, th: Thread, t: Tid, h: Handle)
    requires Settled(g) && th.pc.EndTrying?
    ensures Tested(g, th, t, h, true, 3) ==
            if g.lock.Held? && g.lock.owner == t then Moved(g, th.(pc := Uncounting))
            else Moved(g, th.(pc := Outside, exits := th.exits + 1))
  {
  }

  /**
    * No wake-up is lost: a thread that waits on an unsignalled event either belongs to a generation
    * that is not complete and stands in the wait set, or a broadcast is running that has yet to
    * come to its event.
    */
  lemma NoLostWakeUp(s: State, t: Tid)
    requires Reachable(s) && t < |s.threads| && s.threads[t].pc.Blocking?
    requires !Enabled(s.shared, s.threads[t], t, 0)
    ensures var th := s.threads[t];
            || (th.exits == s.shared.generation && th.handle in s.shared.waitSet && Broadcast(s) == Idle)
            || (Broadcast(s).Casting? && Awaited(s.shared.waitSet, Broadcast(s).signalled, th.handle))
  {
    InvReachable(s);
    assert Signal(s.shared, s.threads[t], Broadcast(s));
  }

  /** Once all have been counted and no broadcast is about to start or still running, nobody is blocked in wait. */
  lemma CompleteGenerationWakes(s: State, t: Tid)
    requires Reachable(s) && t < |s.threads| && s.threads[t].pc.Blocking?
    requires forall u :: 0 <= u < |s.threads| ==>
      s.threads[u].exits > s.threads[t].exits ||
      (s.threads[u].exits == s.threads[t].exits && Counted(s.threads[u].pc))
    requires !OwnerDecides(s) && Broadcast(s) == Idle
    ensures Enabled(s.shared, s.threads[t], t, 0)
  {
    InvReachable(s);
    var g := s.shared.generation;
    assert Round(s.threads[t], g);
    if s.threads[t].exits == g {
      forall u | 0 <= u < |s.threads|
        ensures Arrived(s.threads[u], g)
      {
        assert Round(s.threads[u], g);
      }
      FullHouse(s.threads, g);
      assert false;
    }
    assert Signal(s.shared, s.threads[t], Broadcast(s));
  }

  // ----- refinement of a barrier that takes one step per call and one per return -----

  datatype Ideal = Ideal(entries: seq<nat>, exits: seq<nat>)

  ghost predicate IdealEnter(a: Ideal, t: Tid, b: Ideal) {
    && |a.entries| == |a.exits| && t < |a.entries|
    && a.entries[t] == a.exits[t]
    && b == a.(entries := a.entries[t := a.entries[t] + 1])
  }

  /** A thread may leave when all have entered as many calls as it has. */
  ghost predicate IdealLeave(a: Ideal, t: Tid, b: Ideal) {
    && |a.entries| == |a.exits| && t < |a.entries|
    && a.entries[t] == a.exits[t] + 1
    && (forall u :: 0 <= u < |a.entries| ==> a.entries[u] >= a.entries[t])
    && b == a.(exits := a.exits[t := a.exits[t] + 1])
  }

  function Observe(s: State): Ideal {
    Ideal(seq(|s.threads|, t requires 0 <= t < |s.threads| => s.threads[t].entries),
          seq(|s.threads|, t requires 0 <= t < |s.threads| => s.threads[t].exits))
  }

  lemma PlacedOf(s: State, t: Tid)
    requires Sections(s) && t < |s.threads|
    ensures Placed(s.shared, s.threads[t], t)
  {
  }

  lemma VisibleStep(g: Shared, th: Thread, t: Tid, h: Handle)
    requires Enabled(g, th, t, h)
    ensures var th' := Act(g, th, t, h).thread;
            if th.pc.Outside? then th'.entries == th.entries + 1 && th'.exits == th.exits
            else th'.entries == th.entries &&
                 (th'.exits == th.exits || (th'.exits == th.exits + 1 && InEnd(th.pc)))
  {
  }

  /** Every step of the program is a step of the ideal barrier, or does not show. */
  lemma StepRefinesIdeal(s: State, m: Move)
    requires Reachable(s) && CanMove(s, m)
    ensures var a, b := Observe(s), Observe(Step(s, m));
            a == b || IdealEnter(a, m.thread, b) || IdealLeave(a, m.thread, b)
  {
    hide Act, Enabled, Sections, Signals;
    var t := m.thread;
    var th := s.threads[t];
    var s' := Step(s, m);
    var a, b := Observe(s), Observe(s');
    InvReachable(s);
    VisibleStep(s.shared, th, t, m.handle);
    PlacedOf(s, t);
    assert Round(th, s.shared.generation);
    if th.pc.Outside? {
      assert b.entries == a.entries[t := a.entries[t] + 1] && b.exits == a.exits;
    } else if s'.threads[t].exits == th.exits {
      assert b.entries == a.entries && b.exits == a.exits;
    } else {
      forall u | 0 <= u < |s.threads|
        ensures a.entries[u] >= a.entries[t]
      {
        assert Round(s.threads[u], s.shared.generation);
        PlacedOf(s, u);
      }
      assert b.entries == a.entries && b.exits == a.exits[t := a.exits[t] + 1];
    }
  }

  // ----- progress -----

  ghost predicate Finished(s: State) {
    forall t :: 0 <= t < |s.threads| ==> s.threads[t].pc.Outside? && s.threads[t].entries == s.shared.quota
  }

  /** A thread inside a section can always take its next step. */
  lemma OwnerMoves(s: State, t: Tid, h: Handle)
    requires Inv(s) && t < |s.threads| && h !in s.shared.open
    requires LockDepth(s.threads[t].pc) > 0
    ensures CanMove(s, Move(t, h))
  {
    assert Placed(s.shared, s.threads[t], t);
    if s.shared.setLock.Held? {
      var o := s.shared.setLock.owner;
      assert Placed(s.shared, s.threads[o], o);
    }
  }

  /** With the section free, a thread that cannot move has finished or waits for the rest of its generation. */
  lemma StuckThread(s: State, t: Tid)
    requires Inv(s) && t < |s.threads| && s.shared.lock == Free
    requires !CanMove(s, Move(t, 0))
    ensures var th := s.threads[t];
            || (th.pc.Outside? && th.entries == th.exits == s.shared.quota == s.shared.generation)
            || (th.pc.Blocking? && th.exits == s.shared.generation && th.entries == th.exits + 1)
    ensures s.threads[t].entries <= s.shared.quota
  {
    assert Placed(s.shared, s.threads[t], t);
    assert Round(s.threads[t], s.shared.generation);
    assert Signal(s.shared, s.threads[t], Broadcast(s));
  }

  lemma FreshHandle(open: map<Handle, bool>) returns (h: Handle)
    ensures h !in open
  {
    h := AboveAll(open.Keys);
  }

  lemma {:induction false} AboveAll(keys: set<Handle>) returns (h: Handle)
    ensures forall k :: k in keys ==> k < h
    decreases |keys|
  {
    h := 0;
    if keys != {} {
      var k :| k in keys;
      var rest := AboveAll(keys - {k});
      h := if k < rest then rest else k + 1;
      assert keys == (keys - {k}) + {k};
    }
  }

  /** Deadlock freedom: until every thread has made all its calls, some thread can move. */
  lemma NeverStuck(s: State)
    requires Reachable(s) && !Finished(s)
    ensures exists m :: CanMove(s, m)
  {
    InvReachable(s);
    if forall m :: !CanMove(s, m) {
      if s.shared.lock.Held? {
        var o := s.shared.lock.owner;
        assert Placed(s.shared, s.threads[o], o);
        var h := FreshHandle(s.shared.open);
        OwnerMoves(s, o, h);
      } else {
        forall t | 0 <= t < |s.threads|
          ensures !CanMove(s, Move(t, 0))
        {
        }
        AllStuck(s);
      }
    }
  }

  lemma AllStuck(s: State)
    requires Inv(s) && s.shared.lock == Free
    requires forall t :: 0 <= t < |s.threads| ==> !CanMove(s, Move(t, 0))
    ensures Finished(s)
  {
    hide CanMove, Sections, Signals;
    if t :| 0 <= t < |s.threads| && s.threads[t].pc.Blocking? {
      StuckThread(s, t);
      forall u | 0 <= u < |s.threads|
        ensures Arrived(s.threads[u], s.shared.generation)
      {
        StuckThread(s, u);
      }
      FullHouse(s.threads, s.shared.generation);
      assert false;
    }
    forall t | 0 <= t < |s.threads|
      ensures s.threads[t].pc.Outside? && s.threads[t].entries == s.shared.quota
    {
      StuckThread(s, t);
    }
  }

  // ----- every run is finite -----

  const STEPS_PER_CALL: nat := 25

  /** Steps the thread has left in its call, each later SetEvent of the event it will push included. */
  function Rank(pc: Pc): nat {
    match pc
    case Outside => 0
    case Entering => 24
    case Recording => 23
    case Counting => 22
    case Deciding => 21
    case WaitTrying => 20
    case WaitChecking => 19
    case WaitRefusing => 18
    case WaitUntrying => 18
    case Creating => 17
    case PushEntering => 16
    case Pushing => 15
    case PushLeaving => 13
    case Saving => 12
    case Zeroing => 11
    case Releasing(_) => 10
    case Blocking => 9
    case Reentering(_) => 8
    case Restoring => 7
    case Closing => 6
    case CastEntering => 9
    case CastSetting(_) => 8
    case CastClearing => 7
    case CastLeaving => 6
    case EndTrying => 5
    case EndChecking => 4
    case EndRefusing => 3
    case EndUntrying => 3
    case Uncounting => 2
    case Leaving => 1
  }

  function ThreadLeft(th: Thread, quota: nat): nat
    requires th.entries <= quota
  {
    (quota - th.entries) * STEPS_PER_CALL + Rank(th.pc)
  }

  ghost predicate Bounded(threads: seq<Thread>, quota: nat) {
    forall t :: 0 <= t < |threads| ==> threads[t].entries <= quota
  }

  ghost function ThreadsLeft(threads: seq<Thread>, quota: nat): nat
    requires Bounded(threads, quota)
  {
    if threads == [] then 0
    else ThreadLeft(threads[0], quota) + ThreadsLeft(threads[1..], quota)
  }

  lemma {:induction false} ThreadsLeftUpdate(threads: seq<Thread>, t: Tid, th: Thread, quota: nat)
    requires Bounded(threads, quota) && th.entries <= quota && t < |threads|
    ensures Bounded(threads[t := th], quota)
    ensures ThreadsLeft(threads[t := th], quota) ==
            ThreadsLeft(threads, quota) - ThreadLeft(threads[t], quota) + ThreadLeft(th, quota)
  {
    if t > 0 {
      ThreadsLeftUpdate(threads[1..], t - 1, th, quota);
      assert threads[t := th][1..] == threads[1..][t - 1 := th];
    } else {
      assert threads[t := th][1..] == threads[1..];
    }
  }

  /** The events a broadcast that is running, or else the next one, has yet to signal. */
  function Unsignalled(waiting: nat, cast: Progress): nat {
    match cast
    case Idle => waiting
    case Casting(k) => if k < waiting then waiting - k else 0
  }

  ghost function StepsLeft(s: State): nat
    requires Bounded(s.threads, s.shared.quota)
  {
    ThreadsLeft(s.threads, s.shared.quota) + Unsignalled(|s.shared.waitSet|, Broadcast(s))
  }

  lemma InvBounded(s: State)
    requires Inv(s)
    ensures Bounded(s.threads, s.shared.quota)
  {
    forall t | 0 <= t < |s.threads|
      ensures s.threads[t].entries <= s.shared.quota
    {
      assert Placed(s.shared, s.threads[t], t);
    }
  }

  /** Fewer steps are left after a move of one thread from g to r. */
  ghost predicate Nearer(g: Shared, th: Thread, r: Moved, cast: Progress, cast': Progress) {
    && r.shared.quota == g.quota && th.entries <= g.quota && r.thread.entries <= g.quota
    && ThreadLeft(r.thread, g.quota) + Unsignalled(|r.shared.waitSet|, cast')
       < ThreadLeft(th, g.quota) + Unsignalled(|g.waitSet|, cast)
  }

  lemma RankSync(g: Shared, th: Thread, t: Tid, h: Handle, cast: Progress, cast': Progress)
    requires Enabled(g, th, t, h) && Placed(g, th, t) && InSync(th.pc)
    requires CastMoves(th.pc, ActSync(g, th, t).thread.pc, g, ActSync(g, th, t).shared, cast, cast')
    ensures Nearer(g, th, ActSync(g, th, t), cast, cast')
  {
  }

  lemma RankCast(g: Shared, th: Thread, t: Tid, h: Handle, cast: Progress, cast': Progress)
    requires Enabled(g, th, t, h) && Placed(g, th, t) && WaitSetOpen(g) && InCast(th.pc)
    requires CastMoves(th.pc, ActCast(g, th, t).thread.pc, g, ActCast(g, th, t).shared, cast, cast')
    ensures Nearer(g, th, ActCast(g, th, t), cast, cast')
  {
  }

  lemma RankWait(g: Shared, th: Thread, t: Tid, h: Handle, cast: Progress, cast': Progress)
    requires Enabled(g, th, t, h) && Placed(g, th, t) && !InSync(th.pc) && !InCast(th.pc) && !InEnd(th.pc)
    requires CastMoves(th.pc, ActWait(g, th, t, h).thread.pc, g, ActWait(g, th, t, h).shared, cast, cast')
    ensures Nearer(g, th, ActWait(g, th, t, h), cast, cast')
  {
  }

  lemma RankEnd(g: Shared, th: Thread, t: Tid, h: Handle, cast: Progress, cast': Progress)
    requires Enabled(g, th, t, h) && Placed(g, th, t) && InEnd(th.pc)
    requires CastMoves(th.pc, ActEnd(g, th, t).thread.pc, g, ActEnd(g, th, t).shared, cast, cast')
    ensures Nearer(g, th, ActEnd(g, th, t), cast, cast')
  {
  }

  lemma RankStep(g: Shared, th: Thread, t: Tid, h: Handle, cast: Progress, cast': Progress)
    requires Enabled(g, th, t, h) && Placed(g, th, t) && WaitSetOpen(g)
    requires CastMoves(th.pc, Act(g, th, t, h).thread.pc, g, Act(g, th, t, h).shared, cast, cast')
    ensures Nearer(g, th, Act(g, th, t, h), cast, cast')
  {
    hide Enabled, Placed, WaitSetOpen, CastMoves, Nearer, ActSync, ActCast, ActEnd, ActWait;
    if InSync(th.pc) {
      RankSync(g, th, t, h, cast, cast');
    } else if InCast(th.pc) {
      RankCast(g, th, t, h, cast, cast');
    } else if InEnd(th.pc) {
      RankEnd(g, th, t, h, cast, cast');
    } else {
      RankWait(g, th, t, h, cast, cast');
    }
  }

  lemma StepsShrink(s: State, m: Move)
    requires Inv(s) && CanMove(s, m)
    ensures Bounded(s.threads, s.shared.quota) && Bounded(Step(s, m).threads, Step(s, m).shared.quota)
    ensures StepsLeft(Step(s, m)) < StepsLeft(s)
  {
    hide Act, Enabled, Shape, CastMoves, Unsignalled, Broadcast, ThreadLeft, Generations, WaitSetOpen;
    var t := m.thread;
    var s' := Step(s, m);
    InvBounded(s);
    assert Placed(s.shared, s.threads[t], t);
    BroadcastStep(s, m);
    RankStep(s.shared, s.threads[t], t, m.handle, Broadcast(s), Broadcast(s'));
    ThreadsLeftUpdate(s.threads, t, s'.threads[t], s.shared.quota);
  }

  lemma {:induction false} RunIsShort(s: State, moves: seq<Move>)
    requires Inv(s) && CanRun(s, moves)
    ensures Bounded(s.threads, s.shared.quota)
    ensures |moves| <= StepsLeft(s)
    decreases |moves|
  {
    hide Inv, CanMove, Step, StepsLeft;
    InvBounded(s);
    if moves != [] {
      InvStep(s, moves[0]);
      StepsShrink(s, moves[0]);
      RunIsShort(Step(s, moves[0]), moves[1..]);
    }
  }

  lemma {:induction false} StepsAtStart(threads: seq<Thread>, quota: nat)
    requires forall t :: 0 <= t < |threads| ==> threads[t].pc.Outside? && threads[t].entries == 0
    ensures Bounded(threads, quota)
    ensures ThreadsLeft(threads, quota) == STEPS_PER_CALL * quota * |threads|
  {
    if threads != [] {
      assert forall t :: 0 <= t < |threads[1..]| ==> threads[1..][t] == threads[t + 1];
      StepsAtStart(threads[1..], quota);
    }
  }

  /** Whatever the schedule, the threads together take at most 25 steps a call. */
  lemma RunsEnd(start: State, moves: seq<Move>)
    requires Init(start) && CanRun(start, moves)
    ensures |moves| <= STEPS_PER_CALL * start.shared.quota * |start.threads|
  {
    InvInit(start);
    RunIsShort(start, moves);
    StepsAtStart(start.threads, start.shared.quota);
  }

  lemma {:induction false} RunAppend(s: State, moves: seq<Move>, m: Move)
    requires CanRun(s, moves) && CanMove(Run(s, moves), m)
    ensures CanRun(s, moves + [m]) && Run(s, moves + [m]) == Step(Run(s, moves), m)
    decreases |moves|
  {
    hide CanMove, Step;
    var all := moves + [m];
    if moves == [] {
      assert all[1..] == [];
      assert CanRun(Step(s, m), []);
    } else {
      RunAppend(Step(s, moves[0]), moves[1..], m);
      assert all[0] == moves[0] && all[1..] == moves[1..] + [m];
    }
  }

  lemma ReachableStep(s: State, m: Move)
    requires Reachable(s) && CanMove(s, m)
    ensures Reachable(Step(s, m))
  {
    hide CanMove, Step, Init;
    var start: State, moves: seq<Move> :| Init(start) && CanRun(start, moves) && Run(start, moves) == s;
    RunAppend(start, moves, m);
    assert CanRun(start, moves + [m]);
  }

  /**
    * A schedule that goes on while some thread can move brings every thread through all its calls:
    * the state where it stops is one in which all have returned.
    */
  lemma StoppedMeansFinished(s: State, t: Tid)
    requires Reachable(s) && t < |s.threads| && forall m :: !CanMove(s, m)
    ensures s.threads[t].pc.Outside? && s.threads[t].exits == s.threads[t].entries == s.shared.quota
  {
    hide CanMove;
    if !Finished(s) {
      NeverStuck(s);
    }
    InvReachable(s);
    assert Placed(s.shared, s.threads[t], t);
  }

  lemma {:induction false} FinishWithin(s: State, n: nat) returns (moves: seq<Move>)
    requires Reachable(s) && Inv(s)
    requires Bounded(s.threads, s.shared.quota) && StepsLeft(s) <= n
    ensures CanRun(s, moves) && Finished(Run(s, moves))
    decreases n
  {
    hide CanMove, Step, StepsLeft, Finished, Inv, Bounded;
    moves := [];
    if !Finished(s) {
      NeverStuck(s);
      var m :| CanMove(s, m);
      StepsShrink(s, m);
      InvStep(s, m);
      ReachableStep(s, m);
      var rest := FinishWithin(Step(s, m), n - 1);
      moves := [m] + rest;
      assert moves[1..] == rest;
    }
  }

  /** From every reachable state all threads can still be brought through all their calls. */
  lemma CanAlwaysFinish(s: State)
    requires Reachable(s)
    ensures exists moves :: CanRun(s, moves) && Finished(Run(s, moves))
  {
    InvReachable(s);
    InvBounded(s);
    var moves := FinishWithin(s, StepsLeft(s));
  }
}
