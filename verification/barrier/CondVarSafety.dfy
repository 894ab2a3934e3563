// Every step of the barrier keeps the invariant.
module CondVarSafety {
  import opened CondVar
  import opened CondVarInvariant

  // ----- generations -----

  /** A step other than counting and deciding leaves the count alone and keeps the thread's round. */
  lemma QuietRound(g: Shared, th: Thread, t: Tid, h: Handle, cast: Progress)
    requires Enabled(g, th, t, h) && Placed(g, th, t) && Round(th, g.generation) && Signal(g, th, cast)
    requires WaitSetOpen(g) && !th.pc.Counting? && !th.pc.Deciding?
    ensures var r := Act(g, th, t, h);
            && r.shared.maxThreads == g.maxThreads && r.shared.count == g.count && r.shared.generation == g.generation
            && Round(r.thread, g.generation)
            && (Arrived(r.thread, g.generation) <==> Arrived(th, g.generation))
  {
  }

  lemma QuietGenerations(s: State, m: Move)
    requires Inv(s) && CanMove(s, m)
    requires !s.threads[m.thread].pc.Counting? && !s.threads[m.thread].pc.Deciding?
    ensures Generations(Step(s, m))
  {
    hide Act, Enabled, Signal, Round, Arrived, Shape;
    var s' := Step(s, m);
    var t := m.thread;
    assert Placed(s.shared, s.threads[t], t);
    ActPlaced(s.shared, s.threads[t], t, m.handle);
    QuietRound(s.shared, s.threads[t], t, m.handle, Broadcast(s));
    ArrivalsUpdate(s.threads, t, s'.threads[t], s.shared.generation);
  }

  lemma CountingGenerations(s: State, m: Move)
    requires Inv(s) && CanMove(s, m) && s.threads[m.thread].pc.Counting?
    ensures Generations(Step(s, m))
  {
    hide Signals;
    var s' := Step(s, m);
    var t := m.thread;
    assert Placed(s.shared, s.threads[t], t);
    assert Round(s.threads[t], s.shared.generation);
    ArrivalsUpdate(s.threads, t, s'.threads[t], s.shared.generation);
  }

  /** When the last thread of a generation decides, all the others wait for the broadcast. */
  lemma AllBlocked(s: State, t: Tid)
    requires Inv(s) && t < |s.threads| && s.threads[t].pc.Deciding?
    requires Arrivals(s.threads, s.shared.generation) == |s.threads|
    ensures forall u :: 0 <= u < |s.threads| ==>
      s.threads[u].exits == s.shared.generation && (u != t ==> s.threads[u].pc.Blocking?)
  {
    hide Signals;
    AllArrived(s.threads, s.shared.generation);
    assert Placed(s.shared, s.threads[t], t);
    forall u | 0 <= u < |s.threads|
      ensures s.threads[u].exits == s.shared.generation && (u != t ==> s.threads[u].pc.Blocking?)
    {
      assert Placed(s.shared, s.threads[u], u);
      assert Round(s.threads[u], s.shared.generation);
      assert Arrived(s.threads[u], s.shared.generation);
    }
  }

  lemma FullAtDeciding(s: State, t: Tid)
    requires Inv(s) && t < |s.threads| && s.threads[t].pc.Deciding?
    ensures (s.shared.count >= (s.shared.maxThreads + UINT_MAX) % (UINT_MAX + 1)) <==>
            Arrivals(s.threads, s.shared.generation) == |s.threads|
  {
    hide Signals, Sections;
    assert Round(s.threads[t], s.shared.generation);
    if Arrivals(s.threads, s.shared.generation) == 0 {
      ArrivalsUpdate(s.threads, t, s.threads[t], s.shared.generation);
      ArrivalsUpdate(s.threads, t, s.threads[t].(pc := Outside), s.shared.generation);
    }
  }

  lemma DecidingGenerations(s: State, m: Move)
    requires Inv(s) && CanMove(s, m) && s.threads[m.thread].pc.Deciding?
    ensures Generations(Step(s, m))
  {
    hide Signals;
    var s' := Step(s, m);
    var t := m.thread;
    assert Round(s.threads[t], s.shared.generation);
    FullAtDeciding(s, t);
    if Arrivals(s.threads, s.shared.generation) == |s.threads| {
      AllBlocked(s, t);
      NoArrivals(s'.threads, s'.shared.generation);
    } else {
      ArrivalsUpdate(s.threads, t, s'.threads[t], s.shared.generation);
    }
  }

  lemma GenerationsStep(s: State, m: Move)
    requires Inv(s) && CanMove(s, m)
    ensures Generations(Step(s, m))
  {
    hide Inv, Generations, Step;
    var pc := s.threads[m.thread].pc;
    if pc.Counting? {
      CountingGenerations(s, m);
    } else if pc.Deciding? {
      DecidingGenerations(s, m);
    } else {
      QuietGenerations(s, m);
    }
  }

  // ----- events -----

  /** How a step from pc to pc' moves the progress of the broadcast. */
  predicate CastMoves(pc: Pc, pc': Pc, g: Shared, g': Shared, cast: Progress, cast': Progress) {
    && (LockDepth(pc) > 0 ==> cast == ProgressAt(pc, |g.waitSet|))
    && (LockDepth(pc) == 0 && LockDepth(pc') > 0 ==> cast == Idle)
    && (if LockDepth(pc') > 0 then cast' == ProgressAt(pc', |g'.waitSet|)
        else cast' == if LockDepth(pc) > 0 then Idle else cast)
  }

  lemma SilentSet(g: Shared, th: Thread, t: Tid, h: Handle)
    requires Enabled(g, th, t, h) && LockDepth(th.pc) == 0
    ensures Act(g, th, t, h).shared.waitSet == g.waitSet
  {
  }

  lemma BroadcastStep(s: State, m: Move)
    requires Sections(s) && CanMove(s, m) && WaitSetOpen(s.shared)
    ensures var s' := Step(s, m);
            CastMoves(s.threads[m.thread].pc, s'.threads[m.thread].pc, s.shared, s'.shared, Broadcast(s), Broadcast(s'))
  {
    hide Shape, Act, Enabled, ProgressAt;
    var t := m.thread;
    assert Placed(s.shared, s.threads[t], t);
    ActPlaced(s.shared, s.threads[t], t, m.handle);
    if LockDepth(s.threads[t].pc) == 0 {
      SilentSet(s.shared, s.threads[t], t, m.handle);
    }
  }

  lemma MoverSignal(g: Shared, th: Thread, t: Tid, h: Handle, cast: Progress, cast': Progress)
    requires Enabled(g, th, t, h) && Placed(g, th, t) && Signal(g, th, cast) && WaitSetOpen(g)
    requires Round(th, g.generation)
    requires CastMoves(th.pc, Act(g, th, t, h).thread.pc, g, Act(g, th, t, h).shared, cast, cast')
    ensures Signal(Act(g, th, t, h).shared, Act(g, th, t, h).thread, cast')
    ensures WaitSetOpen(Act(g, th, t, h).shared)
  {
  }

  /** u is another thread than the mover: it has an event of its own and is not inside the section t is in. */
  ghost predicate Beside(g: Shared, th: Thread, t: Tid, u: Thread, cast: Progress) {
    && Placed(g, th, t) && Signal(g, th, cast) && Signal(g, u, cast)
    && WaitSetOpen(g) && Round(u, g.generation)
    && (Live(th.pc) && Live(u.pc) ==> th.handle != u.handle)
    && (LockDepth(th.pc) > 0 ==> LockDepth(u.pc) == 0)
  }

  lemma SyncBeside(g: Shared, th: Thread, t: Tid, h: Handle, u: Thread, cast: Progress, cast': Progress)
    requires Enabled(g, th, t, h) && InSync(th.pc)
    requires Beside(g, th, t, u, cast)
    requires CastMoves(th.pc, ActSync(g, th, t).thread.pc, g, ActSync(g, th, t).shared, cast, cast')
    requires th.pc.Deciding? && ActSync(g, th, t).shared.generation != g.generation ==>
               u.exits == g.generation && u.pc.Blocking?
    ensures Signal(ActSync(g, th, t).shared, u, cast')
  {
  }

  lemma CastBeside(g: Shared, th: Thread, t: Tid, h: Handle, u: Thread, cast: Progress, cast': Progress)
    requires Enabled(g, th, t, h) && InCast(th.pc)
    requires Beside(g, th, t, u, cast)
    requires CastMoves(th.pc, ActCast(g, th, t).thread.pc, g, ActCast(g, th, t).shared, cast, cast')
    ensures Signal(ActCast(g, th, t).shared, u, cast')
  {
  }

  lemma WaitBeside(g: Shared, th: Thread, t: Tid, h: Handle, u: Thread, cast: Progress, cast': Progress)
    requires Enabled(g, th, t, h) && !InSync(th.pc) && !InCast(th.pc) && !InEnd(th.pc)
    requires Beside(g, th, t, u, cast)
    requires CastMoves(th.pc, ActWait(g, th, t, h).thread.pc, g, ActWait(g, th, t, h).shared, cast, cast')
    ensures Signal(ActWait(g, th, t, h).shared, u, cast')
  {
  }

  lemma EndBeside(g: Shared, th: Thread, t: Tid, h: Handle, u: Thread, cast: Progress, cast': Progress)
    requires Enabled(g, th, t, h) && InEnd(th.pc)
    requires Beside(g, th, t, u, cast)
    requires CastMoves(th.pc, ActEnd(g, th, t).thread.pc, g, ActEnd(g, th, t).shared, cast, cast')
    ensures Signal(ActEnd(g, th, t).shared, u, cast')
  {
  }

  lemma ActBeside(g: Shared, th: Thread, t: Tid, h: Handle, u: Thread, cast: Progress, cast': Progress)
    requires Enabled(g, th, t, h)
    requires Beside(g, th, t, u, cast)
    requires CastMoves(th.pc, Act(g, th, t, h).thread.pc, g, Act(g, th, t, h).shared, cast, cast')
    requires th.pc.Deciding? && Act(g, th, t, h).shared.generation != g.generation ==>
               u.exits == g.generation && u.pc.Blocking?
    ensures Signal(Act(g, th, t, h).shared, u, cast')
  {
    hide Enabled, Beside, CastMoves, Signal, ActSync, ActCast, ActWait, ActEnd;
    if InSync(th.pc) {
      SyncBeside(g, th, t, h, u, cast, cast');
    } else if InCast(th.pc) {
      CastBeside(g, th, t, h, u, cast, cast');
    } else if InEnd(th.pc) {
      EndBeside(g, th, t, h, u, cast, cast');
    } else {
      WaitBeside(g, th, t, h, u, cast, cast');
    }
  }

  /** Only CreateEvent hands out a handle, and it hands out one that is not open. */
  lemma KeepsHandle(g: Shared, th: Thread, t: Tid, h: Handle)
    requires Enabled(g, th, t, h)
    ensures var th' := Act(g, th, t, h).thread;
            Live(th'.pc) ==> (Live(th.pc) && th'.handle == th.handle) || (th'.handle == h && h !in g.open)
  {
  }

  /** Only the last thread to decide moves the generation on. */
  lemma SameGeneration(s: State, m: Move)
    requires Inv(s) && CanMove(s, m)
    requires s.threads[m.thread].pc.Deciding? && Step(s, m).shared.generation != s.shared.generation
    ensures forall u :: 0 <= u < |s.threads| && u != m.thread ==>
      s.threads[u].exits == s.shared.generation && s.threads[u].pc.Blocking?
  {
    hide Inv;
    FullAtDeciding(s, m.thread);
    AllBlocked(s, m.thread);
  }

  lemma OwnEventsStep(s: State, m: Move)
    requires Signals(s) && CanMove(s, m)
    ensures OwnEvents(Step(s, m).threads)
  {
    hide Act, Enabled;
    var s' := Step(s, m);
    var t := m.thread;
    KeepsHandle(s.shared, s.threads[t], t, m.handle);
    forall u | 0 <= u < |s.threads| && Live(s.threads[u].pc)
      ensures s.threads[u].handle in s.shared.open
    {
      assert Signal(s.shared, s.threads[u], Broadcast(s));
    }
  }

  lemma RoundOf(s: State, t: Tid)
    requires Generations(s) && t < |s.threads|
    ensures Round(s.threads[t], s.shared.generation)
  {
  }

  lemma SignalsStep(s: State, m: Move)
    requires Inv(s) && CanMove(s, m)
    ensures Signals(Step(s, m))
  {
    hide Act, Enabled, Signal, Shape, CastMoves, WaitSetOpen, Broadcast, Live, Generations;
    var s' := Step(s, m);
    var t := m.thread;
    assert Placed(s.shared, s.threads[t], t);
    RoundOf(s, t);
    BroadcastStep(s, m);
    MoverSignal(s.shared, s.threads[t], t, m.handle, Broadcast(s), Broadcast(s'));
    forall u | 0 <= u < |s.threads| && u != t
      ensures Signal(s'.shared, s'.threads[u], Broadcast(s'))
    {
      assert Placed(s.shared, s.threads[u], u);
      RoundOf(s, u);
      if s.threads[t].pc.Deciding? && s'.shared.generation != s.shared.generation {
        SameGeneration(s, m);
      }
      ActBeside(s.shared, s.threads[t], t, m.handle, s.threads[u], Broadcast(s), Broadcast(s'));
    }
    OwnEventsStep(s, m);
  }

  lemma InvStep(s: State, m: Move)
    requires Inv(s) && CanMove(s, m)
    ensures Inv(Step(s, m))
  {
    SectionsStep(s, m);
    GenerationsStep(s, m);
    SignalsStep(s, m);
  }

  lemma InvInit(s: State)
    requires Init(s)
    ensures Inv(s)
  {
    NoArrivals(s.threads, 0);
  }

  lemma {:induction false} InvRun(s: State, moves: seq<Move>)
    requires Inv(s) && CanRun(s, moves)
    ensures Inv(Run(s, moves))
    decreases |moves|
  {
    hide Inv, Step;
    if moves != [] {
      InvStep(s, moves[0]);
      InvRun(Step(s, moves[0]), moves[1..]);
    }
  }

  lemma InvReachable(s: State)
    requires Reachable(s)
    ensures Inv(s)
  {
    var start: State, moves: seq<Move> :| Init(start) && CanRun(start, moves) && Run(start, moves) == s;
    InvInit(start);
    InvRun(start, moves);
  }
}
