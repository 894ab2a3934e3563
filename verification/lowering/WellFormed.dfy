/**
  What the pass relies on: the contract of its three oracles, and the static
  rules of sections 6.8.1 to 6.8.6 of ISO/IEC 9899:1999. The parser enforces
  them, but for distinct cases: it looks a case up by a number that is always 0
  and by a fresh copy of its text, so that case values clash nowhere is assumed.
 */
module WellFormed {
  import opened Wrappers
  import opened Syntax
  import opened Semantics
  import opened Lowering

  /** A constant's truth is known, and a meaningless constant can be dropped unobserved. */
  ghost predicate OraclesSound(sem: Sem, o: Oracles) {
    && (forall e: Expr, st: Store :: o.isConst(e) && sem.eval(e, st).Value? ==>
          (sem.eval(e, st).v != 0 <==> o.isTrue(e)))
    && (forall e: Expr, st: Store :: o.isMeanless(e) ==> sem.eval(e, st).Value? && sem.eval(e, st).st == st)
  }

  /** A case label's expression is a constant without effect. */
  ghost predicate PureCase(sem: Sem, l: CaseLabel) {
    l.CaseLabel? ==> forall st: Store :: sem.eval(l.e, st) == Value(sem.caseValue(l.e), st)
  }

  /** Two labels no single switch may hold: cases of equal value, or two defaults. */
  predicate Clash(sem: Sem, a: CaseLabel, b: CaseLabel) {
    (a.DefaultLabel? && b.DefaultLabel?)
    || (a.CaseLabel? && b.CaseLabel? && ULong(sem.caseValue(a.e)) == ULong(sem.caseValue(b.e)))
  }

  /** A label list holds the labels of the switch body, in any order, without clash. */
  ghost predicate LabelsAgree(sem: Sem, labels: seq<CaseLabel>, own: seq<CaseLabel>) {
    && (forall l :: l in labels <==> l in own)
    && (forall l :: l in labels ==> PureCase(sem, l))
    && (forall i, j :: 0 <= i < j < |labels| ==> !Clash(sem, labels[i], labels[j]))
  }

  /**
    Break and continue occur where allowed, no label is defined twice, and
    switch label lists are right.
   */
  ghost predicate Static(sem: Sem, s: Stmt, brk: bool, cnt: bool)
    decreases s, 1
  {
    match s
    case Label(id, b) => id !in AllLabels(b) && Static(sem, b, brk, cnt)
    case Case(id, _, b) => id !in AllLabels(b) && Static(sem, b, brk, cnt)
    case Default(id, b) => id !in AllLabels(b) && Static(sem, b, brk, cnt)
    case Block(ss) => StaticSeq(sem, ss, brk, cnt)
    case If(_, _, t, e) =>
      && Static(sem, t, brk, cnt)
      && (e.Some? ==> Static(sem, e.value, brk, cnt) && AllLabels(t) !! AllLabels(e.value))
    case While(_, b) => Static(sem, b, true, true)
    case DoWhile(b, _) => Static(sem, b, true, true)
    case For(_, _, _, b) => Static(sem, b, true, true)
    case Switch(_, b, labels) => LabelsAgree(sem, labels, OwnLabels(b)) && Static(sem, b, true, cnt)
    case Break(_) => brk
    case Continue(_) => cnt
    case _ => true
  }

  ghost predicate StaticSeq(sem: Sem, ss: seq<Stmt>, brk: bool, cnt: bool)
    decreases ss, 0
  {
    ss != [] ==>
      && Static(sem, ss[0], brk, cnt)
      && AllLabels(ss[0]) !! AllLabelsSeq(ss[1..])
      && StaticSeq(sem, ss[1..], brk, cnt)
  }

  /** The labels of the code that is lowered; labels of dropped code are missing. */
  function Kept(o: Oracles, s: Stmt): set<Id>
    decreases s, 1
  {
    match s
    case Label(id, b) => {id} + Kept(o, b)
    case Case(id, _, b) => {id} + Kept(o, b)
    case Default(id, b) => {id} + Kept(o, b)
    case Block(ss) => KeptSeq(o, ss)
    case If(_, c, t, e) =>
      var T := if FoldsIf(o, c, t, e) && !o.isTrue(c) then {} else Kept(o, t);
      var E := if e.None? || (FoldsIf(o, c, t, e) && o.isTrue(c)) then {} else Kept(o, e.value);
      T + E
    case While(c, b) => if DropsBody(o, c, b) then {} else Kept(o, b)
    case DoWhile(b, _) => Kept(o, b)
    case For(_, c, _, b) => if DropsBody(o, c, b) then {} else Kept(o, b)
    case Switch(_, b, _) => if ContainsLabel(b) then Kept(o, b) else {}
    case _ => {}
  }

  function KeptSeq(o: Oracles, ss: seq<Stmt>): set<Id>
    decreases ss, 0
  {
    if ss == [] then {} else Kept(o, ss[0]) + KeptSeq(o, ss[1..])
  }

  /**
    Everything the lowered code jumps to is lowered: each goto names a label in
    `L`, and a switch keeps all its labels.
   */
  predicate JumpsKept(o: Oracles, L: set<Id>, s: Stmt)
    decreases s, 1
  {
    match s
    case Label(_, b) => JumpsKept(o, L, b)
    case Case(_, _, b) => JumpsKept(o, L, b)
    case Default(_, b) => JumpsKept(o, L, b)
    case Block(ss) => JumpsKeptSeq(o, L, ss)
    case If(_, c, t, e) =>
      && ((FoldsIf(o, c, t, e) && !o.isTrue(c)) || JumpsKept(o, L, t))
      && (e.None? || (FoldsIf(o, c, t, e) && o.isTrue(c)) || JumpsKept(o, L, e.value))
    case Goto(_, target) => target in L
    case While(c, b) => DropsBody(o, c, b) || JumpsKept(o, L, b)
    case DoWhile(b, _) => JumpsKept(o, L, b)
    case For(_, c, _, b) => DropsBody(o, c, b) || JumpsKept(o, L, b)
    case Switch(_, b, labels) =>
      if ContainsLabel(b) then (forall l | l in labels :: l.id in Kept(o, b)) && JumpsKept(o, L, b)
      else labels == []
    case _ => true
  }

  predicate JumpsKeptSeq(o: Oracles, L: set<Id>, ss: seq<Stmt>)
    decreases ss, 0
  {
    ss != [] ==> JumpsKept(o, L, ss[0]) && JumpsKeptSeq(o, L, ss[1..])
  }

  /** A function body the parser can hand to the pass, `n` being the first unused identity. */
  ghost predicate WellFormedFunction(sem: Sem, fn: seq<Stmt>, n: Id) {
    && DistinctIdsSeq(fn)
    && (forall id :: id in NodeIdsSeq(fn) ==> id < n)
    && StaticSeq(sem, fn, false, false)
  }

  /** The labels named by gotos. */
  function GotoTargets(s: Stmt): set<Id>
    decreases s, 1
  {
    match s
    case Label(_, b) => GotoTargets(b)
    case Case(_, _, b) => GotoTargets(b)
    case Default(_, b) => GotoTargets(b)
    case Block(ss) => GotoTargetsSeq(ss)
    case If(_, _, t, e) => GotoTargets(t) + if e.Some? then GotoTargets(e.value) else {}
    case Goto(_, target) => {target}
    case While(_, b) => GotoTargets(b)
    case DoWhile(b, _) => GotoTargets(b)
    case For(_, _, _, b) => GotoTargets(b)
    case Switch(_, b, _) => GotoTargets(b)
    case _ => {}
  }

  function GotoTargetsSeq(ss: seq<Stmt>): set<Id>
    decreases ss, 0
  {
    if ss == [] then {} else GotoTargets(ss[0]) + GotoTargetsSeq(ss[1..])
  }

  /** Every surviving switch keeps all its labels; gotos may name labels in dropped code. */
  predicate KeepsSwitches(o: Oracles, fn: seq<Stmt>) {
    JumpsKeptSeq(o, KeptSeq(o, fn) + GotoTargetsSeq(fn), fn)
  }

  /** No surviving jump of the function names a label in dropped code. */
  predicate KeepsTargets(o: Oracles, fn: seq<Stmt>) {
    JumpsKeptSeq(o, KeptSeq(o, fn), fn)
  }
}
