// What every step of the barrier keeps: who is inside the two critical sections and what the
// recorded lock count then is, which generation each thread belongs to, and which events are
// in the wait set or signalled.
module CondVarInvariant {
  import opened CondVar

  // ----- the two critical sections -----

  /** How often a thread about to take step pc is inside the client's section. */
  function LockDepth(pc: Pc): nat {
    match pc
    case Outside | Entering | Blocking | Reentering(_) => 0
    case WaitChecking | WaitRefusing | WaitUntrying => 2
    case EndChecking | EndRefusing | EndUntrying => 2
    case _ => 1
  }

  /** The same for the section that protects the wait set. */
  function SetDepth(pc: Pc): nat {
    match pc
    case CastSetting(_) | CastClearing | CastLeaving | Pushing | PushLeaving => 1
    case _ => 0
  }

  /** What _nLockCount holds while the owner of the client's section is about to take step pc. */
  function LockCountAt(pc: Pc): nat {
    match pc
    case Recording | Releasing(_) | Restoring | Leaving => 0
    case _ => 1
  }

  predicate Owns(c: Section, t: Tid, depth: nat) {
    if depth > 0 then c == Held(t, depth) else c == Free || c.owner != t
  }

  predicate Shape(th: Thread, quota: nat) {
    && !th.pc.WaitRefusing? && !th.pc.EndRefusing?
    && (th.pc.Zeroing? || th.pc.Releasing? || th.pc.Blocking? || th.pc.Reentering? || th.pc.Restoring? ==>
          th.saved == 1)
    && (th.pc.Releasing? ==> th.pc.released == 0)
    && (th.pc.Reentering? ==> th.pc.entered == 0)
    && th.entries == th.exits + (if th.pc == Outside then 0 else 1)
    && th.entries <= quota
  }

  predicate Placed(g: Shared, th: Thread, t: Tid) {
    && Owns(g.lock, t, LockDepth(th.pc))
    && Owns(g.setLock, t, SetDepth(th.pc))
    && Shape(th, g.quota)
  }

  ghost predicate Sections(s: State) {
    && (s.shared.lock.Held? ==> s.shared.lock.owner < |s.threads|)
    && (s.shared.setLock.Held? ==> s.shared.setLock.owner < |s.threads|)
    && (forall t :: 0 <= t < |s.threads| ==> Placed(s.shared, s.threads[t], t))
    && s.shared.nLockCount == (if s.shared.lock == Free then 0 else LockCountAt(s.threads[s.shared.lock.owner].pc))
  }

  /** What t sees of the invariant. */
  predicate Sees(g: Shared, th: Thread, t: Tid) {
    && Placed(g, th, t)
    && (g.lock == Free ==> g.nLockCount == 0)
    && (g.lock.Held? && g.lock.owner == t ==> g.nLockCount == LockCountAt(th.pc))
  }

  /** After t's step: t is placed, and a section it took or gave up was not another thread's. */
  ghost predicate StepPlaced(g: Shared, t: Tid, g': Shared, th': Thread) {
    && Sees(g', th', t)
    && g'.quota == g.quota
    && (g'.lock == g.lock || (CanEnter(g.lock, t) && (g'.lock == Free || g'.lock.owner == t)))
    && (g'.setLock == g.setLock || (CanEnter(g.setLock, t) && (g'.setLock == Free || g'.setLock.owner == t)))
    && (g'.lock.Held? && g'.lock.owner != t ==> g'.nLockCount == g.nLockCount)
  }

  /** No event in the wait set has been closed, so no SetEvent of a broadcast fails. */
  ghost predicate WaitSetOpen(g: Shared) {
    forall i :: 0 <= i < |g.waitSet| ==> g.waitSet[i] in g.open
  }

  lemma SyncPlaced(g: Shared, th: Thread, t: Tid, h: Handle)
    requires Enabled(g, th, t, h) && Sees(g, th, t) && WaitSetOpen(g) && InSync(th.pc)
    ensures StepPlaced(g, t, ActSync(g, th, t).shared, ActSync(g, th, t).thread)
  {
  }

  lemma CastPlaced(g: Shared, th: Thread, t: Tid, h: Handle)
    requires Enabled(g, th, t, h) && Sees(g, th, t) && WaitSetOpen(g) && InCast(th.pc)
    ensures StepPlaced(g, t, ActCast(g, th, t).shared, ActCast(g, th, t).thread)
  {
  }

  lemma WaitPlaced(g: Shared, th: Thread, t: Tid, h: Handle)
    requires Enabled(g, th, t, h) && Sees(g, th, t) && WaitSetOpen(g) && !InSync(th.pc) &&
             !InCast(th.pc) && !InEnd(th.pc)
    ensures StepPlaced(g, t, ActWait(g, th, t, h).shared, ActWait(g, th, t, h).thread)
  {
  }

  lemma EndPlaced(g: Shared, th: Thread, t: Tid, h: Handle)
    requires Enabled(g, th, t, h) && Sees(g, th, t) && WaitSetOpen(g) && InEnd(th.pc)
    ensures StepPlaced(g, t, ActEnd(g, th, t).shared, ActEnd(g, th, t).thread)
  {
  }

  lemma ActPlaced(g: Shared, th: Thread, t: Tid, h: Handle)
    requires Enabled(g, th, t, h) && Sees(g, th, t) && WaitSetOpen(g)
    ensures StepPlaced(g, t, Act(g, th, t, h).shared, Act(g, th, t, h).thread)
  {
    hide Enabled, Sees, WaitSetOpen, StepPlaced, ActSync, ActCast, ActEnd, ActWait;
    if InSync(th.pc) {
      SyncPlaced(g, th, t, h);
    } else if InCast(th.pc) {
      CastPlaced(g, th, t, h);
    } else if InEnd(th.pc) {
      EndPlaced(g, th, t, h);
    } else {
      WaitPlaced(g, th, t, h);
    }
  }

  lemma SectionsStep(s: State, m: Move)
    requires Sections(s) && WaitSetOpen(s.shared) && CanMove(s, m)
    ensures Sections(Step(s, m))
  {
    hide Shape, Act, WaitSetOpen;
    var s' := Step(s, m);
    ActPlaced(s.shared, s.threads[m.thread], m.thread, m.handle);
    forall u | 0 <= u < |s'.threads|
      ensures Placed(s'.shared, s'.threads[u], u)
    {
      assert Placed(s.shared, s.threads[u], u);
    }
  }

  // ----- generations -----

  /** Has the thread been counted in the call it is in? */
  predicate Counted(pc: Pc) {
    !pc.Outside? && !pc.Entering? && !pc.Recording? && !pc.Counting?
  }

  /** Counted, and its generation is still incomplete. */
  predicate Pending(pc: Pc) {
    match pc
    case Deciding | WaitTrying | WaitChecking | WaitRefusing | WaitUntrying | Creating => true
    case PushEntering | Pushing | PushLeaving | Saving | Zeroing | Releasing(_) => true
    case _ => false
  }

  predicate Round(th: Thread, generation: nat) {
    if !Counted(th.pc) || Pending(th.pc) then th.exits == generation
    else if th.pc.Blocking? then th.exits == generation || th.exits + 1 == generation
    else th.exits + 1 == generation
  }

  predicate Arrived(th: Thread, generation: nat) {
    Counted(th.pc) && th.exits == generation
  }

  function Arrivals(threads: seq<Thread>, generation: nat): (n: nat)
    ensures n <= |threads|
  {
    if threads == [] then 0
    else (if Arrived(threads[0], generation) then 1 else 0) + Arrivals(threads[1..], generation)
  }

  lemma {:induction false} ArrivalsUpdate(threads: seq<Thread>, t: Tid, th: Thread, generation: nat)
    requires t < |threads|
    ensures Arrivals(threads[t := th], generation) ==
            Arrivals(threads, generation)
            - (if Arrived(threads[t], generation) then 1 else 0)
            + (if Arrived(th, generation) then 1 else 0)
  {
    if t > 0 {
      ArrivalsUpdate(threads[1..], t - 1, th, generation);
      assert threads[t := th][1..] == threads[1..][t - 1 := th];
    } else {
      assert threads[t := th][1..] == threads[1..];
    }
  }

  lemma {:induction false} NoArrivals(threads: seq<Thread>, generation: nat)
    requires forall t :: 0 <= t < |threads| ==> !Arrived(threads[t], generation)
    ensures Arrivals(threads, generation) == 0
  {
    if threads != [] {
      assert forall t :: 0 <= t < |threads[1..]| ==> threads[1..][t] == threads[t + 1];
      NoArrivals(threads[1..], generation);
    }
  }

  lemma {:induction false} AllArrived(threads: seq<Thread>, generation: nat)
    ensures Arrivals(threads, generation) == |threads| ==>
              forall t :: 0 <= t < |threads| ==> Arrived(threads[t], generation)
  {
    if threads != [] {
      AllArrived(threads[1..], generation);
      assert threads == [threads[0]] + threads[1..];
    }
  }

  lemma {:induction false} FullHouse(threads: seq<Thread>, generation: nat)
    requires forall t :: 0 <= t < |threads| ==> Arrived(threads[t], generation)
    ensures Arrivals(threads, generation) == |threads|
  {
    if threads != [] {
      assert forall t :: 0 <= t < |threads[1..]| ==> threads[1..][t] == threads[t + 1];
      FullHouse(threads[1..], generation);
    }
  }

  ghost predicate OwnerDecides(s: State) {
    s.shared.lock.Held? && s.shared.lock.owner < |s.threads| && s.threads[s.shared.lock.owner].pc.Deciding?
  }

  ghost predicate Generations(s: State) {
    && 1 <= s.shared.maxThreads <= UINT_MAX
    && |s.threads| == s.shared.maxThreads
    && (forall t :: 0 <= t < |s.threads| ==> Round(s.threads[t], s.shared.generation))
    && var n := Arrivals(s.threads, s.shared.generation);
    && s.shared.count == (if n == 0 then UINT_MAX else n - 1)
    && (n == s.shared.maxThreads ==> OwnerDecides(s))
  }

  // ----- events -----

  datatype Progress = Idle | Casting(signalled: nat)

  /** How far the broadcast has come whose next step is pc. */
  function ProgressAt(pc: Pc, waiting: nat): Progress {
    match pc
    case CastEntering => Casting(0)
    case CastSetting(k) => Casting(k)
    case CastClearing => Casting(waiting)
    case _ => Idle
  }

  /** How much of the wait set a running broadcast has signalled. */
  function Broadcast(s: State): Progress {
    if s.shared.lock.Held? && s.shared.lock.owner < |s.threads| then
      ProgressAt(s.threads[s.shared.lock.owner].pc, |s.shared.waitSet|)
    else Idle
  }

  /** Does the thread have an event of its own? */
  predicate Live(pc: Pc) {
    match pc
    case PushEntering | Pushing | PushLeaving | Saving | Zeroing | Releasing(_) => true
    case Blocking | Reentering(_) | Restoring | Closing => true
    case _ => false
  }

  predicate Signal(g: Shared, th: Thread, cast: Progress) {
    (Live(th.pc) ==> th.handle in g.open) &&
    match th.pc
    case PushEntering | Pushing => !g.open[th.handle]
    case PushLeaving | Saving | Zeroing | Releasing(_) => !g.open[th.handle] && th.handle in g.waitSet
    case Blocking =>
      if th.exits == g.generation then
        !g.open[th.handle] && th.handle in g.waitSet && cast == Idle
      else
        && (th.handle in g.waitSet ==> cast.Casting?)
        && (g.open[th.handle] || (cast.Casting? && Awaited(g.waitSet, cast.signalled, th.handle)))
    case Reentering(_) => th.handle in g.waitSet ==> cast.Casting?
    case Restoring | Closing => th.handle !in g.waitSet
    case _ => true
  }

  /** The broadcast has yet to signal the event. */
  predicate Awaited(waitSet: seq<Handle>, signalled: nat, h: Handle) {
    exists i :: signalled <= i < |waitSet| && waitSet[i] == h
  }

  ghost predicate OwnEvents(threads: seq<Thread>) {
    forall t, u :: (0 <= t < |threads| && 0 <= u < |threads| && t != u && Live(threads[t].pc) && Live(threads[u].pc))
      ==> threads[t].handle != threads[u].handle
  }

  ghost predicate Signals(s: State) {
    && (forall t :: 0 <= t < |s.threads| ==> Signal(s.shared, s.threads[t], Broadcast(s)))
    && WaitSetOpen(s.shared)
    && OwnEvents(s.threads)
  }

  ghost predicate Inv(s: State) {
    Sections(s) && Generations(s) && Signals(s)
  }
}
