// The Win32 condition-variable barrier of SDKThread.cpp as a machine of interleaved steps.
// One step is one call of the operating system or one access to a shared field, so a thread can
// be preempted between any two of them.
module CondVar {

  type Tid = nat
  type Handle = nat

  const UINT_MAX: nat := 0xFFFF_FFFF

  /** A Win32 critical section: its owner may enter it again, and must leave it as often. */
  datatype Section = Free | Held(owner: Tid, depth: nat)

  /** Where a thread stands; each name is the step the thread takes next. */
  datatype Pc =
    | Outside
    // beginSynchronized and the body of syncThreads
    | Entering
    | Recording
    | Counting
    | Deciding
    // broadcast
    | CastEntering
    | CastSetting(next: nat)
    | CastClearing
    | CastLeaving
    // wait, with _lockHeldByCallingThread and _push
    | WaitTrying
    | WaitChecking
    | WaitRefusing
    | WaitUntrying
    | Creating
    | PushEntering
    | Pushing
    | PushLeaving
    | Saving
    | Zeroing
    | Releasing(released: nat)
    | Blocking
    | Reentering(entered: nat)
    | Restoring
    | Closing
    // endSynchronized, with _lockHeldByCallingThread
    | EndTrying
    | EndChecking
    | EndRefusing
    | EndUntrying
    | Uncounting
    | Leaving

  /** `entries` and `exits` count the calls of syncThreads the thread has begun and finished. */
  datatype Thread = Thread(pc: Pc, handle: Handle, saved: int, entries: nat, exits: nat)

  /**
    * The fields of CondVarImpl, the open events (true when signalled), and two numbers no step
    * of the program reads: `quota` is how often each thread calls syncThreads before it stops,
    * and `generation` how often the barrier has opened.
    */
  datatype Shared = Shared(
    maxThreads: nat,
    quota: nat,
    lock: Section,
    setLock: Section,
    nLockCount: int,
    count: nat,
    waitSet: seq<Handle>,
    open: map<Handle, bool>,
    generation: nat
  )

  datatype State = State(shared: Shared, threads: seq<Thread>)

  /** What init leaves behind, with every thread outside. */
  ghost predicate Init(s: State) {
    && 1 <= s.shared.maxThreads <= UINT_MAX
    && s.shared.lock == Free && s.shared.setLock == Free
    && s.shared.nLockCount == 0 && s.shared.count == UINT_MAX
    && s.shared.waitSet == [] && s.shared.open == map[]
    && s.shared.generation == 0
    && |s.threads| == s.shared.maxThreads
    && (forall t :: 0 <= t < |s.threads| ==>
          s.threads[t].pc == Outside && s.threads[t].entries == 0 && s.threads[t].exits == 0)
  }

  // ----- critical sections -----

  predicate CanEnter(c: Section, t: Tid) {
    c == Free || c.owner == t
  }

  function Enter(c: Section, t: Tid): Section
    requires CanEnter(c, t)
  {
    if c == Free then Held(t, 1) else Held(t, c.depth + 1)
  }

  function Leave(c: Section, t: Tid): Section {
    if c.Held? && c.owner == t && c.depth > 0 then
      if c.depth == 1 then Free else Held(t, c.depth - 1)
    else c
  }

  // ----- steps -----

  /** A thread that is not enabled is blocked by the operating system. `h` is what CreateEvent would return. */
  predicate Enabled(g: Shared, th: Thread, t: Tid, h: Handle) {
    match th.pc
    case Outside => th.entries < g.quota
    case Entering => CanEnter(g.lock, t)
    case Reentering(_) => CanEnter(g.lock, t)
    case CastEntering => CanEnter(g.setLock, t)
    case PushEntering => CanEnter(g.setLock, t)
    case Creating => h !in g.open
    case Blocking => th.handle in g.open && g.open[th.handle]
    case _ => true
  }

  predicate InCast(pc: Pc) {
    pc.CastEntering? || pc.CastSetting? || pc.CastClearing? || pc.CastLeaving?
  }

  predicate InEnd(pc: Pc) {
    pc.EndTrying? || pc.EndChecking? || pc.EndRefusing? || pc.EndUntrying? || pc.Uncounting? || pc.Leaving?
  }

  predicate InSync(pc: Pc) {
    pc.Outside? || pc.Entering? || pc.Recording? || pc.Counting? || pc.Deciding?
  }

  /** The shared fields and the thread that moved, after its step. */
  datatype Moved = Moved(shared: Shared, thread: Thread)

  function Goto(g: Shared, th: Thread, pc: Pc): Moved {
    Moved(g, th.(pc := pc))
  }

  function Return(g: Shared, th: Thread): Moved {
    Moved(g, th.(pc := Outside, exits := th.exits + 1))
  }

  /** One step of thread t. */
  function Act(g: Shared, th: Thread, t: Tid, h: Handle): Moved
    requires Enabled(g, th, t, h)
  {
    if InSync(th.pc) then ActSync(g, th, t)
    else if InCast(th.pc) then ActCast(g, th, t)
    else if InEnd(th.pc) then ActEnd(g, th, t)
    else ActWait(g, th, t, h)
  }

  /** beginSynchronized and the counting in syncThreads. */
  function ActSync(g: Shared, th: Thread, t: Tid): Moved
    requires Enabled(g, th, t, 0) && InSync(th.pc)
  {
    match th.pc
    case Outside => Moved(g, th.(pc := Entering, entries := th.entries + 1))
    case Entering => Goto(g.(lock := Enter(g.lock, t)), th, Recording)
    case Recording => Goto(g.(nLockCount := g.nLockCount + 1), th, Counting)
    case Counting =>
      Goto(g.(count := if g.count == UINT_MAX then 0 else (g.count + 1) % (UINT_MAX + 1)), th, Deciding)
    case Deciding =>
      // _maxThreads - 1 is unsigned
      if g.count >= (g.maxThreads + UINT_MAX) % (UINT_MAX + 1) then
        Goto(g.(count := UINT_MAX, generation := g.generation + 1), th, CastEntering)
      else
        Goto(g, th, WaitTrying)
  }

  /** broadcast: a SetEvent that fails returns at once, still inside the wait set's section. */
  function ActCast(g: Shared, th: Thread, t: Tid): Moved
    requires Enabled(g, th, t, 0) && InCast(th.pc)
  {
    match th.pc
    case CastEntering => Goto(g.(setLock := Enter(g.setLock, t)), th, CastSetting(0))
    case CastSetting(k) =>
      if k >= |g.waitSet| then
        Goto(g, th, CastClearing)
      else if g.waitSet[k] !in g.open then
        Goto(g, th, EndTrying)
      else
        Goto(g.(open := g.open[g.waitSet[k] := true]), th, CastSetting(k + 1))
    case CastClearing => Goto(g.(waitSet := []), th, CastLeaving)
    case CastLeaving => Goto(g.(setLock := Leave(g.setLock, t)), th, EndTrying)
  }

  /** wait, with an infinite timeout and not alertable. */
  function ActWait(g: Shared, th: Thread, t: Tid, h: Handle): Moved
    requires Enabled(g, th, t, h) && !InSync(th.pc) && !InCast(th.pc) && !InEnd(th.pc)
  {
    match th.pc
    case WaitTrying =>
      if CanEnter(g.lock, t) then Goto(g.(lock := Enter(g.lock, t)), th, WaitChecking) else Goto(g, th, EndTrying)
    case WaitChecking => Goto(g, th, if g.nLockCount == 0 then WaitRefusing else WaitUntrying)
    case WaitRefusing => Goto(g.(lock := Leave(g.lock, t)), th, EndTrying)
    case WaitUntrying => Goto(g.(lock := Leave(g.lock, t)), th, Creating)
    case Creating => Moved(g.(open := g.open[h := false]), th.(pc := PushEntering, handle := h))
    case PushEntering => Goto(g.(setLock := Enter(g.setLock, t)), th, Pushing)
    case Pushing => Goto(g.(waitSet := g.waitSet + [th.handle]), th, PushLeaving)
    case PushLeaving => Goto(g.(setLock := Leave(g.setLock, t)), th, Saving)
    case Saving => Moved(g, th.(pc := Zeroing, saved := g.nLockCount))
    case Zeroing => Goto(g.(nLockCount := 0), th, if 0 < th.saved then Releasing(0) else Blocking)
    case Releasing(i) =>
      Goto(g.(lock := Leave(g.lock, t)), th, if i + 1 < th.saved then Releasing(i + 1) else Blocking)
    case Blocking =>
      Goto(g.(open := g.open[th.handle := false]), th, if 0 < th.saved then Reentering(0) else Restoring)
    case Reentering(j) =>
      Goto(g.(lock := Enter(g.lock, t)), th, if j + 1 < th.saved then Reentering(j + 1) else Restoring)
    case Restoring => Goto(g.(nLockCount := th.saved), th, Closing)
    case Closing => Goto(g.(open := g.open - {th.handle}), th, EndTrying)
  }

  /** endSynchronized; a refusal returns without leaving the section. */
  function ActEnd(g: Shared, th: Thread, t: Tid): Moved
    requires Enabled(g, th, t, 0) && InEnd(th.pc)
  {
    match th.pc
    case EndTrying =>
      if CanEnter(g.lock, t) then Goto(g.(lock := Enter(g.lock, t)), th, EndChecking) else Return(g, th)
    case EndChecking => Goto(g, th, if g.nLockCount == 0 then EndRefusing else EndUntrying)
    case EndRefusing => Return(g.(lock := Leave(g.lock, t)), th)
    case EndUntrying => Goto(g.(lock := Leave(g.lock, t)), th, Uncounting)
    case Uncounting => Goto(g.(nLockCount := g.nLockCount - 1), th, Leaving)
    case Leaving => Return(g.(lock := Leave(g.lock, t)), th)
  }

  // ----- runs -----

  /** Which thread moves, and which handle CreateEvent would hand it. */
  datatype Move = Move(thread: Tid, handle: Handle)

  predicate CanMove(s: State, m: Move) {
    m.thread < |s.threads| && Enabled(s.shared, s.threads[m.thread], m.thread, m.handle)
  }

  function Step(s: State, m: Move): State
    requires CanMove(s, m)
  {
    var r := Act(s.shared, s.threads[m.thread], m.thread, m.handle);
    State(r.shared, s.threads[m.thread := r.thread])
  }

  predicate CanRun(s: State, moves: seq<Move>)
    decreases |moves|
  {
    moves == [] || (CanMove(s, moves[0]) && CanRun(Step(s, moves[0]), moves[1..]))
  }

  function Run(s: State, moves: seq<Move>): State
    requires CanRun(s, moves)
    decreases |moves|
  {
    if moves == [] then s else Run(Step(s, moves[0]), moves[1..])
  }

  ghost predicate Reachable(s: State) {
    exists start: State, moves: seq<Move> :: Init(start) && CanRun(start, moves) && Run(start, moves) == s
  }
}
