// The events of the barrier: each is open for as long as the thread that created it is inside wait, it is
// signalled for that thread alone, and waking uses the signal up.
module CondVarEvents {
  import opened CondVar
  import opened CondVarInvariant
  import opened CondVarSafety

  predicate Distinct(l: seq<Handle>) {
    forall i, j :: 0 <= i < j < |l| ==> l[i] != l[j]
  }

  /** No running broadcast has yet to signal the event. */
  predicate NotAwaited(g: Shared, cast: Progress, h: Handle) {
    cast.Casting? ==> !Awaited(g.waitSet, cast.signalled, h)
  }

  /** A thread's event is pushed once, signalled once, and unsignalled again when the thread has woken. */
  predicate Consumed(g: Shared, th: Thread, cast: Progress) {
    match th.pc
    case PushEntering | Pushing => th.handle !in g.waitSet
    case Blocking => th.handle in g.open && g.open[th.handle] ==> NotAwaited(g, cast, th.handle)
    case Reentering(_) => th.handle in g.open && !g.open[th.handle] && NotAwaited(g, cast, th.handle)
    case Restoring | Closing => th.handle in g.open && !g.open[th.handle]
    case _ => true
  }

  /** Every open event is that of a thread inside wait. */
  ghost predicate Owned(s: State) {
    forall h :: h in s.shared.open ==> exists t :: 0 <= t < |s.threads| && HasEvent(s.threads[t], h)
  }

  predicate HasEvent(th: Thread, h: Handle) {
    Live(th.pc) && th.handle == h
  }

  ghost predicate Events(s: State) {
    && Distinct(s.shared.waitSet)
    && Owned(s)
    && forall t :: 0 <= t < |s.threads| ==> Consumed(s.shared, s.threads[t], Broadcast(s))
  }

  // ----- one step -----

  lemma MoverConsumed(g: Shared, th: Thread, t: Tid, h: Handle, cast: Progress, cast': Progress)
    requires Enabled(g, th, t, h) && Placed(g, th, t) && Signal(g, th, cast) && WaitSetOpen(g)
    requires Consumed(g, th, cast) && Distinct(g.waitSet)
    requires CastMoves(th.pc, Act(g, th, t, h).thread.pc, g, Act(g, th, t, h).shared, cast, cast')
    ensures Consumed(Act(g, th, t, h).shared, Act(g, th, t, h).thread, cast')
    ensures Distinct(Act(g, th, t, h).shared.waitSet)
  {
  }

  /** What u knows of its event stays true through a step of another thread. */
  lemma OtherConsumed(g: Shared, th: Thread, t: Tid, h: Handle, u: Thread, cast: Progress, cast': Progress)
    requires Enabled(g, th, t, h) && Beside(g, th, t, u, cast)
    requires Consumed(g, th, cast) && Consumed(g, u, cast) && Distinct(g.waitSet)
    requires CastMoves(th.pc, Act(g, th, t, h).thread.pc, g, Act(g, th, t, h).shared, cast, cast')
    requires th.pc.Deciding? && Act(g, th, t, h).shared.generation != g.generation ==>
               u.exits == g.generation && u.pc.Blocking?
    ensures Consumed(Act(g, th, t, h).shared, u, cast')
  {
    hide Enabled, Beside, CastMoves, Consumed, ActSync, ActCast, ActWait, ActEnd;
    if InSync(th.pc) {
      OtherSync(g, th, t, h, u, cast, cast');
    } else if InCast(th.pc) {
      OtherCast(g, th, t, h, u, cast, cast');
    } else if InEnd(th.pc) {
      OtherEnd(g, th, t, h, u, cast, cast');
    } else {
      OtherWait(g, th, t, h, u, cast, cast');
    }
  }

  lemma OtherSync(g: Shared, th: Thread, t: Tid, h: Handle, u: Thread, cast: Progress, cast': Progress)
    requires Enabled(g, th, t, h) && InSync(th.pc) && Beside(g, th, t, u, cast) && Consumed(g, u, cast)
    requires CastMoves(th.pc, ActSync(g, th, t).thread.pc, g, ActSync(g, th, t).shared, cast, cast')
    requires th.pc.Deciding? && ActSync(g, th, t).shared.generation != g.generation ==>
               u.exits == g.generation && u.pc.Blocking?
    ensures Consumed(ActSync(g, th, t).shared, u, cast')
  {
  }

  lemma OtherCast(g: Shared, th: Thread, t: Tid, h: Handle, u: Thread, cast: Progress, cast': Progress)
    requires Enabled(g, th, t, h) && InCast(th.pc) && Beside(g, th, t, u, cast)
    requires Consumed(g, u, cast) && Distinct(g.waitSet)
    requires CastMoves(th.pc, ActCast(g, th, t).thread.pc, g, ActCast(g, th, t).shared, cast, cast')
    ensures Consumed(ActCast(g, th, t).shared, u, cast')
  {
  }

  lemma OtherWait(g: Shared, th: Thread, t: Tid, h: Handle, u: Thread, cast: Progress, cast': Progress)
    requires Enabled(g, th, t, h) && !InSync(th.pc) && !InCast(th.pc) && !InEnd(th.pc)
    requires Beside(g, th, t, u, cast) && Consumed(g, u, cast)
    requires CastMoves(th.pc, ActWait(g, th, t, h).thread.pc, g, ActWait(g, th, t, h).shared, cast, cast')
    ensures Consumed(ActWait(g, th, t, h).shared, u, cast')
  {
  }

  lemma OtherEnd(g: Shared, th: Thread, t: Tid, h: Handle, u: Thread, cast: Progress, cast': Progress)
    requires Enabled(g, th, t, h) && InEnd(th.pc) && Beside(g, th, t, u, cast) && Consumed(g, u, cast)
    requires CastMoves(th.pc, ActEnd(g, th, t).thread.pc, g, ActEnd(g, th, t).shared, cast, cast')
    ensures Consumed(ActEnd(g, th, t).shared, u, cast')
  {
  }

  /** CreateEvent opens the mover's event, CloseHandle closes it, and nothing else opens or closes one. */
  lemma OpensOwn(g: Shared, th: Thread, t: Tid, h: Handle, e: Handle)
    requires Enabled(g, th, t, h)
    ensures var r := Act(g, th, t, h);
            && (e in r.shared.open && e !in g.open ==> HasEvent(r.thread, e))
            && (HasEvent(th, e) && !HasEvent(r.thread, e) ==> e !in r.shared.open)
  {
  }

  lemma OwnedStep(s: State, m: Move)
    requires Owned(s) && Signals(s) && CanMove(s, m)
    ensures Owned(Step(s, m))
  {
    hide Act, Enabled, HasEvent;
    var s', t := Step(s, m), m.thread;
    forall h | h in s'.shared.open
      ensures exists u :: 0 <= u < |s'.threads| && HasEvent(s'.threads[u], h)
    {
      OpensOwn(s.shared, s.threads[t], t, m.handle, h);
      if !HasEvent(s'.threads[t], h) {
        var u :| 0 <= u < |s.threads| && HasEvent(s.threads[u], h);
        assert HasEvent(s'.threads[u], h);
      }
    }
  }

  lemma EventsStep(s: State, m: Move)
    requires Inv(s) && Events(s) && CanMove(s, m)
    ensures Events(Step(s, m))
  {
    hide Act, Enabled, Signal, Shape, CastMoves, WaitSetOpen, Broadcast, Live, Generations, Consumed, Distinct;
    var s', t := Step(s, m), m.thread;
    assert Placed(s.shared, s.threads[t], t);
    BroadcastStep(s, m);
    MoverConsumed(s.shared, s.threads[t], t, m.handle, Broadcast(s), Broadcast(s'));
    forall u | 0 <= u < |s.threads| && u != t
      ensures Consumed(s'.shared, s'.threads[u], Broadcast(s'))
    {
      assert Placed(s.shared, s.threads[u], u);
      RoundOf(s, u);
      if s.threads[t].pc.Deciding? && s'.shared.generation != s.shared.generation {
        SameGeneration(s, m);
      }
      OtherConsumed(s.shared, s.threads[t], t, m.handle, s.threads[u], Broadcast(s), Broadcast(s'));
    }
    OwnedStep(s, m);
  }

  lemma {:induction false} EventsRun(s: State, moves: seq<Move>)
    requires Inv(s) && Events(s) && CanRun(s, moves)
    ensures Events(Run(s, moves))
    decreases |moves|
  {
    hide Inv, Events, Step;
    if moves != [] {
      InvStep(s, moves[0]);
      EventsStep(s, moves[0]);
      EventsRun(Step(s, moves[0]), moves[1..]);
    }
  }

  lemma EventsReachable(s: State)
    requires Reachable(s)
    ensures Inv(s) && Events(s)
  {
    var start: State, moves: seq<Move> :| Init(start) && CanRun(start, moves) && Run(start, moves) == s;
    InvInit(start);
    InvRun(start, moves);
    EventsRun(start, moves);
  }

  // ----- what follows -----

  /** The open events are exactly those of the threads inside wait; where all have returned none is left open. */
  lemma OpenExactly(s: State, h: Handle)
    requires Reachable(s)
    ensures h in s.shared.open <==>
            exists t :: 0 <= t < |s.threads| && Live(s.threads[t].pc) && s.threads[t].handle == h
    ensures (forall t :: 0 <= t < |s.threads| ==> s.threads[t].pc == Outside) ==> s.shared.open == map[]
  {
    EventsReachable(s);
    if h in s.shared.open {
      var t :| 0 <= t < |s.threads| && HasEvent(s.threads[t], h);
    }
    forall t | 0 <= t < |s.threads| && Live(s.threads[t].pc)
      ensures s.threads[t].handle in s.shared.open
    {
      assert Signal(s.shared, s.threads[t], Broadcast(s));
    }
  }

  /** A signalled event is that of a thread that has yet to wake by it, and no broadcast will signal it again. */
  lemma SignalledOnce(s: State, h: Handle)
    requires Reachable(s) && h in s.shared.open && s.shared.open[h]
    ensures exists t :: 0 <= t < |s.threads| && s.threads[t].pc.Blocking? && s.threads[t].handle == h
    ensures Broadcast(s).Casting? ==> !Awaited(s.shared.waitSet, Broadcast(s).signalled, h)
  {
    EventsReachable(s);
    var t :| 0 <= t < |s.threads| && HasEvent(s.threads[t], h);
    assert Signal(s.shared, s.threads[t], Broadcast(s)) && Consumed(s.shared, s.threads[t], Broadcast(s));
  }
}
