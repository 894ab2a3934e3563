// Any number of threads on one hash table: a write lock for each line and one lock for the counter.
// A step is one lock operation, one access to the counter, or one change of a line by the holder of its lock.
module HashThreads {
  import opened Wrappers
  import opened Hash

  type Tid = nat

  datatype Job = Add(s: Sym) | Drop(name: Name, level: nat) | Purge(from: nat)

  /** `at` is the line, `i` the entry looked at or found. */
  datatype Pc =
    | Idle
    | Locking(job: Job, at: nat)
    | Scanning(job: Job, at: nat, i: nat)
    | Entering(job: Job, at: nat, i: nat)
    | Testing(job: Job, at: nat, i: nat)
    | Counting(job: Job, at: nat, i: nat)
    | Leaving(job: Job, at: nat, i: nat)
    | Linking(job: Job, at: nat, i: nat)
    | Refusing(job: Job, at: nat)
    | Unlocking(job: Job, at: nat)
    | Crashing

  datatype Line = Line(entries: seq<Sym>, owner: Option<Tid>)

  datatype State = State(lines: seq<Line>, count: int, limit: nat, hashOwner: Option<Tid>, threads: seq<Pc>)

  ghost predicate Init(s: State) {
    && s.lines != [] && s.count == 0 && s.hashOwner == None
    && (forall k :: 0 <= k < |s.lines| ==> s.lines[k] == Line([], None))
    && (forall t :: 0 <= t < |s.threads| ==> s.threads[t] == Idle)
  }

  /** The index of the first entry that is the same, or the length. */
  function IndexOf(l: seq<Sym>, name: Name, level: nat): (i: nat)
    ensures i <= |l|
  {
    if l == [] || IsSame(name, level)(l[0]) then 0 else 1 + IndexOf(l[1..], name, level)
  }

  function Without(l: seq<Sym>, i: nat): seq<Sym> {
    if i < |l| then l[..i] + l[i + 1..] else l
  }

  /** Is the thread kept waiting for a lock? A new job must name a line of the table. */
  predicate Enabled(s: State, t: Tid, job: Job, at: nat) {
    t < |s.threads| &&
    match s.threads[t]
    case Idle => at < |s.lines| && (job.Purge? ==> at == 0)
    case Locking(_, k) => k < |s.lines| && s.lines[k].owner == None
    case Entering(_, _, _) => s.hashOwner == None
    case Scanning(_, k, _) => k < |s.lines|
    case Linking(_, k, _) => k < |s.lines|
    case Unlocking(_, k) => k < |s.lines|
    case Crashing => false
    case _ => true
  }

  function Goto(s: State, t: Tid, pc: Pc): State
    requires t < |s.threads|
  {
    s.(threads := s.threads[t := pc])
  }

  function Act(s: State, t: Tid, job: Job, at: nat): State
    requires Enabled(s, t, job, at)
  {
    match s.threads[t]
    case Idle => Goto(s, t, Locking(job, at))
    case Locking(j, k) => Goto(s.(lines := s.lines[k := s.lines[k].(owner := Some(t))]), t, Scanning(j, k, 0))
    case Scanning(j, k, i) => Goto(s, t, AfterScan(j, k, i, s.lines[k].entries))
    case Entering(j, k, i) => Goto(s.(hashOwner := Some(t)), t, Testing(j, k, i))
    case Testing(j, k, i) =>
      if j.Add? then Goto(s, t, if s.count >= s.limit then Refusing(j, k) else Counting(j, k, i))
      else Goto(s, t, if s.count == 0 then Crashing else Counting(j, k, i))
    case Counting(j, k, i) =>
      Goto(s.(count := if j.Add? then s.count + 1 else s.count - 1), t, Leaving(j, k, i))
    case Leaving(j, k, i) => Goto(s.(hashOwner := None), t, Linking(j, k, i))
    case Linking(j, k, i) =>
      var l := s.lines[k].entries;
      Goto(s.(lines := s.lines[k := s.lines[k].(entries := if j.Add? then [j.s] + l else Without(l, i))]), t,
           if j.Purge? then Scanning(j, k, i) else Unlocking(j, k))
    case Refusing(j, k) => Goto(s.(hashOwner := None), t, Unlocking(j, k))
    case Unlocking(j, k) =>
      Goto(s.(lines := s.lines[k := s.lines[k].(owner := None)]), t,
           if j.Purge? && k + 1 < |s.lines| then Locking(j, k + 1) else Idle)
  }

  /** What the holder of the line does after looking at it. */
  function AfterScan(j: Job, k: nat, i: nat, l: seq<Sym>): Pc {
    match j
    case Add(sym) => if IndexOf(l, sym.name, sym.level) < |l| then Unlocking(j, k) else Entering(j, k, 0)
    case Drop(name, level) =>
      if IndexOf(l, name, level) < |l| then Entering(j, k, IndexOf(l, name, level)) else Unlocking(j, k)
    case Purge(from) =>
      if i >= |l| then Unlocking(j, k)
      else if IsFrom(from)(l[i]) then Entering(j, k, i)
      else Scanning(j, k, i + 1)
  }

  // ----- the invariant -----

  predicate HoldsLine(pc: Pc) {
    !pc.Idle? && !pc.Locking? && !pc.Crashing?
  }

  predicate HoldsHash(pc: Pc) {
    pc.Testing? || pc.Counting? || pc.Leaving? || pc.Refusing?
  }

  predicate HasFound(pc: Pc) {
    pc.Entering? || pc.Testing? || pc.Counting? || pc.Leaving? || pc.Linking?
  }

  /** Counted but not yet linked, or uncounted but not yet unlinked. */
  function Pending(pc: Pc): int {
    if pc.Leaving? || pc.Linking? then if pc.job.Add? then 1 else -1 else 0
  }

  predicate NoneSame(l: seq<Sym>, n: nat, name: Name, level: nat)
    requires n <= |l|
  {
    forall j :: 0 <= j < n ==> !IsSame(name, level)(l[j])
  }

  predicate NoneFrom(l: seq<Sym>, n: nat, from: nat)
    requires n <= |l|
  {
    forall j :: 0 <= j < n ==> !IsFrom(from)(l[j])
  }

  /** What the holder of a line knows of it: no entry is the same, or i is the first to go. */
  predicate Knows(pc: Pc, l: seq<Sym>) {
    match pc
    case Scanning(Purge(from), _, i) => i <= |l| && NoneFrom(l, i, from)
    case Entering(j, _, i) => Found(j, i, l)
    case Testing(j, _, i) => Found(j, i, l)
    case Counting(j, _, i) => Found(j, i, l)
    case Leaving(j, _, i) => Found(j, i, l)
    case Linking(j, _, i) => Found(j, i, l)
    case Refusing(j, _) => j.Add?
    case Unlocking(Purge(from), _) => NoneFrom(l, |l|, from)
    case _ => true
  }

  predicate Found(j: Job, i: nat, l: seq<Sym>) {
    match j
    case Add(sym) => NoneSame(l, |l|, sym.name, sym.level)
    case Drop(name, level) => i < |l| && IsSame(name, level)(l[i]) && NoneSame(l, i, name, level)
    case Purge(from) => i < |l| && IsFrom(from)(l[i]) && NoneFrom(l, i, from)
  }

  predicate ThreadOk(s: State, t: Tid)
    requires t < |s.threads|
  {
    var pc := s.threads[t];
    && !pc.Crashing?
    && (pc.Locking? ==> pc.at < |s.lines|)
    && (HoldsLine(pc) ==> pc.at < |s.lines| && s.lines[pc.at].owner == Some(t))
    && (HoldsHash(pc) <==> s.hashOwner == Some(t))
    && (HoldsLine(pc) ==> Knows(pc, s.lines[pc.at].entries))
    && (pc.Counting? ==> if pc.job.Add? then s.count < s.limit else s.count > 0)
  }

  /** The owner of a line's lock is a thread that is at work on that line. */
  predicate LineOk(s: State, k: nat)
    requires k < |s.lines|
  {
    match s.lines[k].owner
    case None => true
    case Some(t) => t < |s.threads| && HoldsLine(s.threads[t]) && s.threads[t].at == k
  }

  /** The entries of a line, those on their way in or out included. */
  function Weight(line: Line, threads: seq<Pc>): int {
    |line.entries| +
    match line.owner
    case Some(t) => if t < |threads| then Pending(threads[t]) else 0
    case None => 0
  }

  function Weights(lines: seq<Line>, threads: seq<Pc>): int {
    if lines == [] then 0 else Weight(lines[0], threads) + Weights(lines[1..], threads)
  }

  function Entries(lines: seq<Line>): nat {
    if lines == [] then 0 else |lines[0].entries| + Entries(lines[1..])
  }

  function AllPending(threads: seq<Pc>): int {
    if threads == [] then 0 else Pending(threads[0]) + AllPending(threads[1..])
  }

  ghost predicate Inv(s: State) {
    && (forall t :: 0 <= t < |s.threads| ==> ThreadOk(s, t))
    && (forall k :: 0 <= k < |s.lines| ==> LineOk(s, k))
    && (s.hashOwner.Some? ==> s.hashOwner.value < |s.threads|)
    && s.count == Entries(s.lines) + AllPending(s.threads)
    && s.count == Weights(s.lines, s.threads)
    && s.count <= s.limit
  }

  // ----- sums -----

  lemma {:induction false} EntriesChange(lines: seq<Line>, k: nat, line: Line)
    requires k < |lines|
    ensures Entries(lines[k := line]) == Entries(lines) - |lines[k].entries| + |line.entries|
  {
    if k == 0 {
      assert lines[k := line][1..] == lines[1..];
    } else {
      EntriesChange(lines[1..], k - 1, line);
      assert lines[k := line][1..] == lines[1..][k - 1 := line];
    }
  }

  lemma {:induction false} PendingChange(threads: seq<Pc>, t: nat, pc: Pc)
    requires t < |threads|
    ensures AllPending(threads[t := pc]) == AllPending(threads) - Pending(threads[t]) + Pending(pc)
  {
    if t == 0 {
      assert threads[t := pc][1..] == threads[1..];
    } else {
      PendingChange(threads[1..], t - 1, pc);
      assert threads[t := pc][1..] == threads[1..][t - 1 := pc];
    }
  }

  /** Weights when every line but k weighs the same. */
  lemma {:induction false} WeightsChange(lines: seq<Line>, lines': seq<Line>,
                                         threads: seq<Pc>, threads': seq<Pc>, k: nat)
    requires |lines'| == |lines| && k < |lines|
    requires forall j :: 0 <= j < |lines| && j != k ==> Weight(lines'[j], threads') == Weight(lines[j], threads)
    ensures Weights(lines', threads') ==
            Weights(lines, threads) - Weight(lines[k], threads) + Weight(lines'[k], threads')
  {
    if k == 0 {
      SameWeights(lines[1..], lines'[1..], threads, threads');
    } else {
      assert forall j :: 0 <= j < |lines[1..]| ==> lines[1..][j] == lines[j + 1] && lines'[1..][j] == lines'[j + 1];
      WeightsChange(lines[1..], lines'[1..], threads, threads', k - 1);
    }
  }

  lemma {:induction false} SameWeights(lines: seq<Line>, lines': seq<Line>, threads: seq<Pc>, threads': seq<Pc>)
    requires |lines'| == |lines|
    requires forall j :: 0 <= j < |lines| ==> Weight(lines'[j], threads') == Weight(lines[j], threads)
    ensures Weights(lines', threads') == Weights(lines, threads)
  {
    if lines != [] {
      SameWeights(lines[1..], lines'[1..], threads, threads');
    }
  }

  /** No line weighs less than nothing, so the whole weighs at least as much as any one line. */
  lemma {:induction false} WeightBelow(lines: seq<Line>, threads: seq<Pc>, k: nat)
    requires k < |lines|
    requires forall j :: 0 <= j < |lines| ==> Weight(lines[j], threads) >= 0
    ensures 0 <= Weight(lines[k], threads) <= Weights(lines, threads)
  {
    var rest := lines[1..];
    assert forall j :: 0 <= j < |rest| ==> rest[j] == lines[j + 1];
    if k > 0 {
      WeightBelow(rest, threads, k - 1);
    } else if rest != [] {
      WeightBelow(rest, threads, 0);
    }
  }

  lemma {:induction false} WeightsPositive(s: State, t: Tid)
    requires Inv(s) && t < |s.threads| && HasFound(s.threads[t]) && !s.threads[t].job.Add? && Pending(s.threads[t]) == 0
    ensures s.count > 0
  {
    forall j | 0 <= j < |s.lines|
      ensures Weight(s.lines[j], s.threads) >= 0
    {
      assert LineOk(s, j);
      if s.lines[j].owner.Some? {
        assert ThreadOk(s, s.lines[j].owner.value);
      }
    }
    assert ThreadOk(s, t);
    WeightBelow(s.lines, s.threads, s.threads[t].at);
  }

  // ----- every step keeps the invariant -----

  /** What a step may change: the thread, its line, the counter and its lock. */
  ghost predicate Local(s: State, t: Tid, s': State) {
    && t < |s.threads| && |s'.threads| == |s.threads| && |s'.lines| == |s.lines| && s'.limit == s.limit
    && s'.threads == s.threads[t := s'.threads[t]]
    && (forall k :: 0 <= k < |s.lines| && s'.lines[k] != s.lines[k] ==>
          (s.lines[k].owner == None || s.lines[k].owner == Some(t)) &&
          (s'.lines[k].owner == None || s'.lines[k].owner == Some(t)))
    && (s'.hashOwner == s.hashOwner ||
        (s.hashOwner == None && s'.hashOwner == Some(t)) || (s.hashOwner == Some(t) && s'.hashOwner == None))
    && (s'.count != s.count ==> s.hashOwner == Some(t))
  }

  lemma {:induction false} ActLocal(s: State, t: Tid, job: Job, at: nat)
    requires t < |s.threads| && ThreadOk(s, t) && Enabled(s, t, job, at)
    ensures Local(s, t, Act(s, t, job, at))
  {
  }

  lemma {:induction false} OtherThread(s: State, t: Tid, s': State, u: Tid)
    requires Local(s, t, s') && u < |s.threads| && u != t && ThreadOk(s, u)
    ensures ThreadOk(s', u)
  {
  }

  /** A thread that is to lower the counter does not find it at zero. */
  ghost predicate NotAtZero(s: State, t: Tid) {
    t < |s.threads| && (s.threads[t].Testing? && !s.threads[t].job.Add? ==> s.count > 0)
  }

  /** What IndexOf finds. */
  lemma {:induction false} IndexOfMeans(l: seq<Sym>, name: Name, level: nat)
    ensures var i := IndexOf(l, name, level);
            NoneSame(l, i, name, level) && (i < |l| ==> IsSame(name, level)(l[i]))
  {
    if l != [] && !IsSame(name, level)(l[0]) {
      IndexOfMeans(l[1..], name, level);
      var i := IndexOf(l[1..], name, level);
      forall j | 0 <= j < i + 1
        ensures !IsSame(name, level)(l[j])
      {
        assert j > 0 ==> l[j] == l[1..][j - 1];
      }
    }
  }

  lemma {:induction false} WithoutFound(l: seq<Sym>, i: nat, from: nat)
    requires i < |l| && NoneFrom(l, i, from)
    ensures |Without(l, i)| == |l| - 1 && NoneFrom(Without(l, i), i, from)
  {
    assert forall j :: 0 <= j < i ==> Without(l, i)[j] == l[j];
  }

  /** What the thread knows after a look at the line. */
  lemma {:induction false} ScanKnows(j: Job, k: nat, i: nat, l: seq<Sym>)
    requires Knows(Scanning(j, k, i), l)
    ensures AfterScan(j, k, i, l).at == k && Knows(AfterScan(j, k, i, l), l)
  {
    match j
    case Add(sym) => IndexOfMeans(l, sym.name, sym.level);
    case Drop(name, level) => IndexOfMeans(l, name, level);
    case Purge(_) =>
  }

  lemma {:induction false} MovedKnows(s: State, t: Tid, job: Job, at: nat)
    requires t < |s.threads| && ThreadOk(s, t) && Enabled(s, t, job, at) && HoldsLine(Act(s, t, job, at).threads[t])
    ensures var s' := Act(s, t, job, at); var pc := s'.threads[t];
            pc.at < |s'.lines| && Knows(pc, s'.lines[pc.at].entries)
  {
    hide NoneFrom, NoneSame, AfterScan, Without, IndexOf;
    match s.threads[t]
    case Locking(_, k) => FreshKnows(s.threads[t].job, k, s.lines[k].entries);
    case Scanning(j, k, i) => ScanKnows(j, k, i, s.lines[k].entries);
    case Linking(j, k, i) =>
      if j.Purge? {
        WithoutFound(s.lines[k].entries, i, j.from);
      }
    case _ =>
  }

  lemma {:induction false} FreshKnows(j: Job, k: nat, l: seq<Sym>)
    ensures Knows(Scanning(j, k, 0), l)
  {
  }

  lemma {:induction false} MovedThread(s: State, t: Tid, job: Job, at: nat)
    requires t < |s.threads| && ThreadOk(s, t) && Enabled(s, t, job, at) && NotAtZero(s, t)
    ensures ThreadOk(Act(s, t, job, at), t)
  {
    hide Knows, IndexOf, Without;
    if HoldsLine(Act(s, t, job, at).threads[t]) {
      MovedKnows(s, t, job, at);
    }
  }

  lemma {:induction false} LineKept(s: State, t: Tid, job: Job, at: nat, k: nat)
    requires t < |s.threads| && ThreadOk(s, t) && Enabled(s, t, job, at) && NotAtZero(s, t)
    requires k < |s.lines| && LineOk(s, k)
    ensures LineOk(Act(s, t, job, at), k)
  {
  }

  lemma {:induction false} SumsKept(s: State, t: Tid, job: Job, at: nat)
    requires t < |s.threads| && ThreadOk(s, t) && Enabled(s, t, job, at)
    requires s.count == Entries(s.lines) + AllPending(s.threads) && s.count <= s.limit
    ensures var s' := Act(s, t, job, at);
            && s'.count == Entries(s'.lines) + AllPending(s'.threads)
            && s'.count <= s'.limit
  {
    hide Entries, AllPending;
    var s' := Act(s, t, job, at);
    var pc := s.threads[t];
    PendingChange(s.threads, t, s'.threads[t]);
    if pc.Locking? || pc.Linking? || pc.Unlocking? {
      EntriesChange(s.lines, pc.at, s'.lines[pc.at]);
    }
  }

  lemma {:induction false} WeightsKept(s: State, t: Tid, job: Job, at: nat)
    requires t < |s.threads| && ThreadOk(s, t) && Enabled(s, t, job, at)
    requires (forall k :: 0 <= k < |s.lines| ==> LineOk(s, k)) && s.count == Weights(s.lines, s.threads)
    ensures var s' := Act(s, t, job, at);
            s'.count == Weights(s'.lines, s'.threads)
  {
    hide Weights;
    var s' := Act(s, t, job, at);
    var pc := s.threads[t];
    forall j | 0 <= j < |s.lines| && (HoldsLine(pc) || pc.Locking? ==> j != pc.at)
      ensures Weight(s'.lines[j], s'.threads) == Weight(s.lines[j], s.threads)
    {
      assert LineOk(s, j);
    }
    if HoldsLine(pc) || pc.Locking? {
      WeightsChange(s.lines, s'.lines, s.threads, s'.threads, pc.at);
    } else {
      SameWeights(s.lines, s'.lines, s.threads, s'.threads);
    }
  }

  lemma {:induction false} InvStep(s: State, t: Tid, job: Job, at: nat)
    requires Inv(s) && Enabled(s, t, job, at)
    ensures Inv(Act(s, t, job, at))
  {
    hide Act, ThreadOk, LineOk, Weights, Entries, AllPending;
    var s' := Act(s, t, job, at);
    assert ThreadOk(s, t);
    if s.threads[t].Testing? && !s.threads[t].job.Add? {
      WeightsPositive(s, t);
    }
    ActLocal(s, t, job, at);
    MovedThread(s, t, job, at);
    forall u | 0 <= u < |s'.threads|
      ensures ThreadOk(s', u)
    {
      if u != t {
        OtherThread(s, t, s', u);
      }
    }
    forall k | 0 <= k < |s'.lines|
      ensures LineOk(s', k)
    {
      LineKept(s, t, job, at, k);
    }
    SumsKept(s, t, job, at);
    WeightsKept(s, t, job, at);
  }

  // ----- which entries come and go -----

  lemma {:induction false} DropFirstIs(l: seq<Sym>, p: Sym -> bool, i: nat)
    requires i < |l| && p(l[i]) && forall j :: 0 <= j < i ==> !p(l[j])
    ensures First(l, p) == Some(l[i]) && DropFirst(l, p) == Without(l, i)
  {
    if i > 0 {
      var rest := l[1..];
      assert rest[i - 1] == l[i] && forall j :: 0 <= j < i - 1 ==> rest[j] == l[j + 1];
      DropFirstIs(rest, p, i - 1);
      assert Without(l, i) == [l[0]] + Without(rest, i - 1);
    }
  }

  lemma {:induction false} FirstNone(l: seq<Sym>, p: Sym -> bool)
    ensures First(l, p) == None <==> forall j :: 0 <= j < |l| ==> !p(l[j])
  {
    if l != [] {
      FirstNone(l[1..], p);
      assert forall j :: 0 <= j < |l| - 1 ==> l[1..][j] == l[j + 1];
    }
  }

  /**
    * The step that changes a line: an insertion puts its symbol in front of a line where no entry is the same, a
    * removal takes the first entry that is, and a purge takes the first entry from its level on.
    */
  lemma {:induction false} LinkingStep(s: State, t: Tid, job: Job, at: nat)
    requires Inv(s) && t < |s.threads| && s.threads[t].Linking? && Enabled(s, t, job, at)
    ensures var l, l' := s.lines[s.threads[t].at].entries, Act(s, t, job, at).lines[s.threads[t].at].entries;
            match s.threads[t].job
            case Add(sym) => First(l, IsSame(sym.name, sym.level)) == None && l' == [sym] + l
            case Drop(name, level) =>
              First(l, IsSame(name, level)).Some? && l' == DropFirst(l, IsSame(name, level))
            case Purge(from) => First(l, IsFrom(from)).Some? && l' == DropFirst(l, IsFrom(from))
  {
    hide Weights, Entries, AllPending;
    assert ThreadOk(s, t);
    var l, i := s.lines[s.threads[t].at].entries, s.threads[t].i;
    match s.threads[t].job
    case Add(sym) => FirstNone(l, IsSame(sym.name, sym.level));
    case Drop(name, level) => DropFirstIs(l, IsSame(name, level), i);
    case Purge(from) => DropFirstIs(l, IsFrom(from), i);
  }

  /** No other step changes any line's entries. */
  lemma {:induction false} OthersKeepEntries(s: State, t: Tid, job: Job, at: nat, k: nat)
    requires Enabled(s, t, job, at) && k < |s.lines| && !(s.threads[t].Linking? && s.threads[t].at == k)
    ensures |Act(s, t, job, at).lines| == |s.lines| && Act(s, t, job, at).lines[k].entries == s.lines[k].entries
  {
  }

  /** An insertion gives up exactly if an entry is the same, a removal exactly if none is. */
  lemma {:induction false} GivesUpExactly(s: State, t: Tid, job: Job, at: nat)
    requires t < |s.threads| && s.threads[t].Scanning? && !s.threads[t].job.Purge? && Enabled(s, t, job, at)
    ensures var j, l := s.threads[t].job, s.lines[s.threads[t].at].entries;
            var (name, level) := if j.Add? then (j.s.name, j.s.level) else (j.name, j.level);
            Act(s, t, job, at).threads[t].Unlocking? <==> (First(l, IsSame(name, level)).Some? <==> j.Add?)
  {
    var j, l := s.threads[t].job, s.lines[s.threads[t].at].entries;
    var (name, level) := if j.Add? then (j.s.name, j.s.level) else (j.name, j.level);
    IndexOfMeans(l, name, level);
    FirstNone(l, IsSame(name, level));
  }

  /** An insertion is refused for the limit exactly if the counter has come to it. */
  lemma {:induction false} LimitExactly(s: State, t: Tid, job: Job, at: nat)
    requires Inv(s) && Enabled(s, t, job, at) && s.threads[t].Testing? && s.threads[t].job.Add?
    ensures Act(s, t, job, at).threads[t].Refusing? <==> s.count == s.limit
  {
    hide Weights, Entries, AllPending, ThreadOk, LineOk;
  }

  // ----- a whole purge -----

  predicate Clean(l: seq<Sym>, from: nat) {
    NoneFrom(l, |l|, from)
  }

  /** Nobody inserts anything from the level on. */
  predicate Harmless(job: Job, from: nat) {
    job.Add? ==> job.s.level < from
  }

  ghost predicate AllHarmless(s: State, from: nat) {
    forall u :: 0 <= u < |s.threads| && !s.threads[u].Idle? && !s.threads[u].Crashing? ==>
      Harmless(s.threads[u].job, from)
  }

  /** Thread t purges and has done the lines before its own. */
  ghost predicate Purging(s: State, t: Tid, from: nat) {
    && t < |s.threads| && !s.threads[t].Idle? && !s.threads[t].Crashing? && s.threads[t].job == Purge(from)
    && (forall k :: 0 <= k < |s.lines| && k < s.threads[t].at ==> Clean(s.lines[k].entries, from))
  }

  /** A line that is clean stays so while nobody inserts from the level on. */
  lemma {:induction false} CleanStays(s: State, u: Tid, job: Job, at: nat, k: nat, from: nat)
    requires Inv(s) && Enabled(s, u, job, at) && k < |s.lines| && AllHarmless(s, from)
    requires Clean(s.lines[k].entries, from)
    ensures |Act(s, u, job, at).lines| == |s.lines| && Clean(Act(s, u, job, at).lines[k].entries, from)
  {
    hide Weights, Entries, AllPending, ThreadOk, LineOk;
    if s.threads[u].Linking? && s.threads[u].at == k {
      var l := s.lines[k].entries;
      var j, i := s.threads[u].job, s.threads[u].i;
      assert Harmless(j, from);
      if !j.Add? {
        forall m | 0 <= m < |Without(l, i)|
          ensures !IsFrom(from)(Without(l, i)[m])
        {
          assert Without(l, i)[m] == if i >= |l| || m < i then l[m] else l[m + 1];
        }
      }
    } else {
      OthersKeepEntries(s, u, job, at, k);
    }
  }

  /** Every step of any thread leaves the purge going, or it was its last and no line has an entry from the level on. */
  lemma {:induction false} PurgeStep(s: State, t: Tid, from: nat, u: Tid, job: Job, at: nat)
    requires Inv(s) && Enabled(s, u, job, at) && AllHarmless(s, from) && Harmless(job, from) && Purging(s, t, from)
    ensures var s' := Act(s, u, job, at);
            && t < |s'.threads| && AllHarmless(s', from)
            && (Purging(s', t, from) ||
                (s'.threads[t].Idle? && forall k :: 0 <= k < |s'.lines| ==> Clean(s'.lines[k].entries, from)))
  {
    hide Weights, Entries, AllPending, LineOk, Clean, ThreadOk, AfterScan;
    var s' := Act(s, u, job, at);
    assert ThreadOk(s, u);
    ActSameJob(s, u, job, at);
    LastLine(s, t, from);
    forall k | 0 <= k < |s.lines| && Clean(s.lines[k].entries, from)
      ensures |s'.lines| == |s.lines| && Clean(s'.lines[k].entries, from)
    {
      CleanStays(s, u, job, at, k, from);
    }
    if u == t {
      NotPastLine(s, t, job, at);
    }
  }

  /** A thread keeps its job until it is done with it, and the others keep theirs. */
  lemma {:induction false} ActSameJob(s: State, u: Tid, job: Job, at: nat)
    requires Enabled(s, u, job, at)
    ensures var s' := Act(s, u, job, at);
            && |s'.threads| == |s.threads| && |s'.lines| == |s.lines|
            && (forall t :: 0 <= t < |s.threads| && t != u ==> s'.threads[t] == s.threads[t])
            && (s.threads[u].Idle? ==> s'.threads[u] == Locking(job, at))
            && (!s.threads[u].Idle? && !s'.threads[u].Idle? && !s'.threads[u].Crashing? ==>
                  s'.threads[u].job == s.threads[u].job)
  {
  }

  /** A purge that lets a line go leaves it clean. */
  lemma {:induction false} LastLine(s: State, t: Tid, from: nat)
    requires Inv(s) && Purging(s, t, from)
    ensures s.threads[t].Unlocking? ==>
              s.threads[t].at < |s.lines| && Clean(s.lines[s.threads[t].at].entries, from)
  {
    hide Weights, Entries, AllPending, LineOk;
    assert ThreadOk(s, t);
  }

  lemma {:induction false} NotPastLine(s: State, t: Tid, job: Job, at: nat)
    requires Inv(s) && Enabled(s, t, job, at) && !s.threads[t].Idle? && s.threads[t].job.Purge?
    ensures var s' := Act(s, t, job, at); var pc, pc' := s.threads[t], s'.threads[t];
            && !pc'.Crashing?
            && (pc'.Idle? ==> pc.Unlocking? && pc.at + 1 >= |s.lines|)
            && (!pc'.Idle? ==> pc'.at == if pc.Unlocking? then pc.at + 1 else pc.at)
  {
    hide Weights, Entries, AllPending, LineOk;
    assert ThreadOk(s, t);
    if s.threads[t].Testing? {
      WeightsPositive(s, t);
    }
  }

  // ----- over every run -----

  datatype Move = Move(thread: Tid, job: Job, at: nat)

  predicate CanRun(s: State, moves: seq<Move>)
    decreases |moves|
  {
    moves == [] ||
    (Enabled(s, moves[0].thread, moves[0].job, moves[0].at) &&
     CanRun(Act(s, moves[0].thread, moves[0].job, moves[0].at), moves[1..]))
  }

  function Run(s: State, moves: seq<Move>): State
    requires CanRun(s, moves)
    decreases |moves|
  {
    if moves == [] then s else Run(Act(s, moves[0].thread, moves[0].job, moves[0].at), moves[1..])
  }

  lemma {:induction false} InvInit(s: State)
    requires Init(s)
    ensures Inv(s)
  {
    AllEmpty(s.lines, s.threads);
    AllIdle(s.threads);
  }

  lemma {:induction false} AllEmpty(lines: seq<Line>, threads: seq<Pc>)
    requires forall k :: 0 <= k < |lines| ==> lines[k] == Line([], None)
    ensures Entries(lines) == 0 && Weights(lines, threads) == 0
  {
    if lines != [] {
      AllEmpty(lines[1..], threads);
    }
  }

  lemma {:induction false} AllIdle(threads: seq<Pc>)
    requires forall t :: 0 <= t < |threads| ==> threads[t] == Idle
    ensures AllPending(threads) == 0
  {
    if threads != [] {
      AllIdle(threads[1..]);
    }
  }

  lemma {:induction false} InvRun(s: State, moves: seq<Move>)
    requires Inv(s) && CanRun(s, moves)
    ensures Inv(Run(s, moves))
    decreases |moves|
  {
    hide Inv, Act, Enabled;
    if moves != [] {
      InvStep(s, moves[0].thread, moves[0].job, moves[0].at);
      InvRun(Act(s, moves[0].thread, moves[0].job, moves[0].at), moves[1..]);
    }
  }

  /**
    * After every run: the counter is the number of entries, plus the inserts counted but not linked, less the
    * removals uncounted but not unlinked; it is within the limit; and no thread has found it at zero.
    */
  lemma {:induction false} CounterExact(start: State, moves: seq<Move>)
    requires Init(start) && CanRun(start, moves)
    ensures var s := Run(start, moves);
            && s.count == Entries(s.lines) + AllPending(s.threads)
            && 0 <= s.count <= s.limit
            && forall t :: 0 <= t < |s.threads| ==> !s.threads[t].Crashing?
  {
    InvInit(start);
    InvRun(start, moves);
    var s := Run(start, moves);
    forall t | 0 <= t < |s.threads|
      ensures !s.threads[t].Crashing?
    {
      assert ThreadOk(s, t);
    }
    if s.lines != [] {
      NotNegative(s);
    } else {
      assert s.count == 0;
    }
  }

  /**
    * From the moment a thread begins to purge until it has finished, whatever the others do but insert from that
    * level on: when it is idle again no line holds an entry from the level on.
    */
  lemma {:induction false} PurgeComplete(s: State, t: Tid, from: nat, moves: seq<Move>)
    requires Inv(s) && CanRun(s, moves) && Purging(s, t, from) && AllHarmless(s, from)
    requires forall i :: 0 <= i < |moves| ==> Harmless(moves[i].job, from)
    ensures Purging(Run(s, moves), t, from) || PurgedAt(s, t, from, moves)
    decreases |moves|
  {
    hide Inv, Act, Enabled, AllHarmless, Purging;
    if moves != [] {
      var m := moves[0];
      var s' := Act(s, m.thread, m.job, m.at);
      PurgeStep(s, t, from, m.thread, m.job, m.at);
      InvStep(s, m.thread, m.job, m.at);
      if Purging(s', t, from) {
        PurgeComplete(s', t, from, moves[1..]);
        if !Purging(Run(s', moves[1..]), t, from) {
          var n :| 0 < n <= |moves[1..]| && PurgedBy(s', t, from, moves[1..], n);
          OneMoveMore(s, moves, n);
          assert PurgedBy(s, t, from, moves, n + 1);
        }
      } else {
        OneMoveMore(s, moves, 0);
        assert Run(s', moves[1..][..0]) == s';
        assert PurgedBy(s, t, from, moves, 1);
      }
    }
  }

  lemma {:induction false} OneMoveMore(s: State, moves: seq<Move>, n: nat)
    requires CanRun(s, moves) && n < |moves|
    requires var m := moves[0]; CanRun(Act(s, m.thread, m.job, m.at), moves[1..][..n])
    ensures CanRun(s, moves[..n + 1])
    ensures var m := moves[0]; Run(s, moves[..n + 1]) == Run(Act(s, m.thread, m.job, m.at), moves[1..][..n])
  {
    hide Act, Enabled;
    assert moves[..n + 1] != [] && moves[..n + 1][0] == moves[0] && moves[..n + 1][1..] == moves[1..][..n];
  }

  /** After the first n moves t is idle and no line has an entry from the level on. */
  ghost predicate PurgedBy(s: State, t: Tid, from: nat, moves: seq<Move>, n: nat)
    requires n <= |moves|
  {
    CanRun(s, moves[..n]) &&
    var r := Run(s, moves[..n]);
    && t < |r.threads| && r.threads[t].Idle?
    && forall k :: 0 <= k < |r.lines| ==> Clean(r.lines[k].entries, from)
  }

  ghost predicate PurgedAt(s: State, t: Tid, from: nat, moves: seq<Move>) {
    exists n :: 0 < n <= |moves| && PurgedBy(s, t, from, moves, n)
  }

  lemma {:induction false} NotNegative(s: State)
    requires Inv(s) && s.lines != []
    ensures s.count >= 0
  {
    forall j | 0 <= j < |s.lines|
      ensures Weight(s.lines[j], s.threads) >= 0
    {
      assert LineOk(s, j);
      if s.lines[j].owner.Some? {
        assert ThreadOk(s, s.lines[j].owner.value);
      }
    }
    WeightBelow(s.lines, s.threads, 0);
  }
}
