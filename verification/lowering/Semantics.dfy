/**
  What a statement tree means (sections 6.8.1 to 6.8.6 of ISO/IEC 9899:1999), and
  what the flat list means to a machine with a program counter. Both are
  deterministic step functions, so a run is a number of steps.
 */
module Semantics {
  import opened Wrappers
  import opened Syntax

  /** A program store. */
  type Store(==, !new)

  /** The result of evaluating an expression: a value and a store, or a run-time fault. */
  datatype Eval = Value(v: int, st: Store) | Fault

  /** The meaning of expressions; `caseValue` is the value the parser computed for a case label. */
  datatype Sem = Sem(eval: (Expr, Store) -> Eval, caseValue: Expr -> int)

  /** How a run ends. `Wild` is a transfer of control to a place that does not exist. */
  datatype Outcome = Fell(st: Store) | Returned(v: Option<int>, st: Store) | Faulted | Wild

  const TWO_TO_THE_64: int := 0x1_0000_0000_0000_0000

  /** Conversion to the selector's type, unsigned long. */
  function ULong(v: int): int {
    v % TWO_TO_THE_64
  }

  // ----- The tree: a statement under execution and what remains after it -----

  datatype Kont =
    | KStop
    | KSeq(rest: seq<Stmt>, k: Kont)
    | KWhile(cond: Expr, body: Stmt, k: Kont)
    | KDo(body: Stmt, cond: Expr, k: Kont)
    | KFor(cond: Expr, inc: Expr, body: Stmt, k: Kont)
    | KSwitch(k: Kont)

  datatype State =
    | Run(s: Stmt, k: Kont, st: Store)                              // about to execute s
    | Test(cond: Expr, inc: Expr, body: Stmt, k: Kont, st: Store)   // about to test a for loop
    | Next(k: Kont, st: Store)                                      // finished, resume k
    | Done(out: Outcome)

  /** Where a break goes: past the innermost enclosing loop or switch. */
  function BreakKont(k: Kont): Option<Kont> {
    match k
    case KStop => None
    case KSeq(_, k') => BreakKont(k')
    case KWhile(_, _, k') => Some(k')
    case KDo(_, _, k') => Some(k')
    case KFor(_, _, _, k') => Some(k')
    case KSwitch(k') => Some(k')
  }

  /** Where a continue goes: to the innermost enclosing loop, through switches. */
  function ContinueKont(k: Kont): Option<Kont> {
    match k
    case KStop => None
    case KSeq(_, k') => ContinueKont(k')
    case KSwitch(k') => ContinueKont(k')
    case _ => Some(k)
  }

  /** The labelled statement named `l` inside `s`, with what follows it when `k` follows `s`. */
  function FindLabel(s: Stmt, l: Id, k: Kont): Option<(Stmt, Kont)>
    decreases s, 1
  {
    match s
    case Label(id, b) => if id == l then Some((s, k)) else FindLabel(b, l, k)
    case Case(id, _, b) => if id == l then Some((s, k)) else FindLabel(b, l, k)
    case Default(id, b) => if id == l then Some((s, k)) else FindLabel(b, l, k)
    case Block(ss) => FindLabelSeq(ss, l, k)
    case If(_, _, t, e) =>
      var r := FindLabel(t, l, k);
      if r.Some? then r else if e.Some? then FindLabel(e.value, l, k) else None
    case While(c, b) => FindLabel(b, l, KWhile(c, b, k))
    case DoWhile(b, c) => FindLabel(b, l, KDo(b, c, k))
    case For(_, c, inc, b) => FindLabel(b, l, KFor(c, inc, b, k))
    case Switch(_, b, _) => FindLabel(b, l, KSwitch(k))
    case _ => None
  }

  function FindLabelSeq(ss: seq<Stmt>, l: Id, k: Kont): Option<(Stmt, Kont)>
    decreases ss, 0
  {
    if ss == [] then None
    else
      var r := FindLabel(ss[0], l, KSeq(ss[1..], k));
      if r.Some? then r else FindLabelSeq(ss[1..], l, k)
  }

  predicate IsCaseFor(sem: Sem, l: CaseLabel, v: int) {
    l.CaseLabel? && ULong(sem.caseValue(l.e)) == ULong(v)
  }

  /** The first case label for `v`. */
  function SelectCase(sem: Sem, ls: seq<CaseLabel>, v: int): Option<Id> {
    if ls == [] then None
    else if IsCaseFor(sem, ls[0], v) then Some(ls[0].id)
    else SelectCase(sem, ls[1..], v)
  }

  /** The first default label. */
  function SelectDefault(ls: seq<CaseLabel>): Option<Id> {
    if ls == [] then None
    else if ls[0].DefaultLabel? then Some(ls[0].id)
    else SelectDefault(ls[1..])
  }

  /** The label a switch enters at: the case for `v`, else the default, else none. */
  function Select(sem: Sem, ls: seq<CaseLabel>, v: int): Option<Id> {
    var r := SelectCase(sem, ls, v);
    if r.Some? then r else SelectDefault(ls)
  }

  /** Continue at the label found, if any. */
  function Enter(found: Option<(Stmt, Kont)>, st: Store): State {
    if found.Some? then Run(found.value.0, found.value.1, st) else Done(Wild)
  }

  /** Test a loop's controlling expression. */
  function LoopTest(sem: Sem, c: Expr, body: Stmt, loop: Kont, after: Kont, st: Store): State {
    match sem.eval(c, st)
    case Fault => Done(Faulted)
    case Value(v, st') => if v != 0 then Run(body, loop, st') else Next(after, st')
  }

  /** Evaluate the initialisers of a declaration in order. */
  function RunDec(sem: Sem, inits: seq<Option<Expr>>, st: Store): Eval {
    if inits == [] then Value(0, st)
    else if inits[0].None? then RunDec(sem, inits[1..], st)
    else
      match sem.eval(inits[0].value, st)
      case Fault => Fault
      case Value(_, st') => RunDec(sem, inits[1..], st')
  }

  /** One step of executing a statement. */
  function RunStep(sem: Sem, fn: seq<Stmt>, s: Stmt, k: Kont, st: Store): State {
    match s
    case Dec(inits) =>
      (match RunDec(sem, inits, st)
       case Fault => Done(Faulted)
       case Value(_, st') => Next(k, st'))
    case Exp(_, e) =>
      (match sem.eval(e, st)
       case Fault => Done(Faulted)
       case Value(_, st') => Next(k, st'))
    case Label(_, b) => Run(b, k, st)
    case Case(_, _, b) => Run(b, k, st)
    case Default(_, b) => Run(b, k, st)
    case Block(ss) => Next(KSeq(ss, k), st)
    case If(_, c, t, e) =>
      (match sem.eval(c, st)
       case Fault => Done(Faulted)
       case Value(v, st') =>
         if v != 0 then Run(t, k, st')
         else if e.Some? then Run(e.value, k, st')
         else Next(k, st'))
    case Goto(_, target) => Enter(FindLabelSeq(fn, target, KStop), st)
    case Return(_, e) =>
      if e.None? then Done(Returned(None, st))
      else
        (match sem.eval(e.value, st)
         case Fault => Done(Faulted)
         case Value(v, st') => Done(Returned(Some(v), st')))
    case While(c, b) => LoopTest(sem, c, b, KWhile(c, b, k), k, st)
    case DoWhile(b, c) => Run(b, KDo(b, c, k), st)
    case For(i, c, inc, b) =>
      (match sem.eval(i, st)
       case Fault => Done(Faulted)
       case Value(_, st') => Test(c, inc, b, k, st'))
    case Switch(e, b, _) =>
      (match sem.eval(e, st)
       case Fault => Done(Faulted)
       case Value(v, st') =>
         var l := Select(sem, OwnLabels(b), v);
         if l.Some? then Enter(FindLabel(b, l.value, KSwitch(k)), st') else Next(k, st'))
    case Break(_) =>
      var r := BreakKont(k);
      if r.Some? then Next(r.value, st) else Done(Wild)
    case Continue(_) =>
      var r := ContinueKont(k);
      if r.Some? then Next(r.value, st) else Done(Wild)
  }

  /** One step of resuming what follows a finished statement. */
  function NextStep(sem: Sem, k: Kont, st: Store): State {
    match k
    case KStop => Done(Fell(st))
    case KSeq(ss, k') => if ss == [] then Next(k', st) else Run(ss[0], KSeq(ss[1..], k'), st)
    case KWhile(c, b, k') => LoopTest(sem, c, b, k, k', st)
    case KDo(b, c, k') => LoopTest(sem, c, b, k, k', st)
    case KFor(c, inc, b, k') =>
      (match sem.eval(inc, st)
       case Fault => Done(Faulted)
       case Value(_, st') => Test(c, inc, b, k', st'))
    case KSwitch(k') => Next(k', st)
  }

  /** One step inside the function with body `fn`; a finished run stays put. */
  function Step(sem: Sem, fn: seq<Stmt>, s: State): State {
    match s
    case Run(stmt, k, st) => RunStep(sem, fn, stmt, k, st)
    case Test(c, inc, b, k, st) => LoopTest(sem, c, b, KFor(c, inc, b, k), k, st)
    case Next(k, st) => NextStep(sem, k, st)
    case Done(_) => s
  }

  function Steps(sem: Sem, fn: seq<Stmt>, s: State, n: nat): State
    decreases n
  {
    if n == 0 then s else Steps(sem, fn, Step(sem, fn, s), n - 1)
  }

  /** The function with body `fn`, started in store `st`, ends with `out`. */
  ghost predicate Ends(sem: Sem, fn: seq<Stmt>, st: Store, out: Outcome) {
    exists n: nat :: Steps(sem, fn, Next(KSeq(fn, KStop), st), n) == Done(out)
  }

  ghost predicate Diverges(sem: Sem, fn: seq<Stmt>, st: Store) {
    forall n: nat :: !Steps(sem, fn, Next(KSeq(fn, KStop), st), n).Done?
  }

  // ----- The flat list -----

  datatype Flat =
    | At(pc: nat, st: Store, sel: map<Id, int>)
    | Halt(out: Outcome)

  /** The position of the node `id`, or the list's length if it is not there. */
  function Find(cells: seq<Cell>, id: Id): nat {
    if cells == [] || cells[0].id == id then 0 else 1 + Find(cells[1..], id)
  }

  /** Continue at a target; a null or unplaced target is a wild jump. */
  function GoTo(C: seq<Cell>, target: Option<Id>, st: Store, sel: map<Id, int>): Flat {
    if target.Some? && Find(C, target.value) < |C| then At(Find(C, target.value), st, sel) else Halt(Wild)
  }

  /** Continue at a target, or at the next node if it is null. */
  function GoToOrNext(C: seq<Cell>, target: Option<Id>, pc: nat, st: Store, sel: map<Id, int>): Flat {
    if target.None? then At(pc + 1, st, sel) else GoTo(C, target, st, sel)
  }

  datatype FlatEval = FlatValue(v: int, st: Store, sel: map<Id, int>) | FlatFault

  function EvalFlat(sem: Sem, fe: FlatExpr, st: Store, sel: map<Id, int>): FlatEval {
    match sem.eval(fe.e, st)
    case Fault => FlatFault
    case Value(v, st') =>
      match fe
      case Plain(_) => FlatValue(v, st', sel)
      case SetSelector(sym, _) => FlatValue(ULong(v), st', sel[sym := ULong(v)])
      case SelectorIs(sym, _) =>
        if sym in sel then FlatValue(if sel[sym] == ULong(v) then 1 else 0, st', sel) else FlatFault
  }

  /** One machine step; `exit` is the return point, which is never placed in the list. */
  function FlatStep(sem: Sem, C: seq<Cell>, exit: Id, f: Flat): Flat {
    if f.Halt? then f
    else if f.pc >= |C| then Halt(Fell(f.st))
    else
      match C[f.pc].node
      case NExpr(fe) =>
        (match EvalFlat(sem, fe, f.st, f.sel)
         case FlatFault => Halt(Faulted)
         case FlatValue(_, st', sel') => At(f.pc + 1, st', sel'))
      case NBranch(fe, t, e) =>
        (match EvalFlat(sem, fe, f.st, f.sel)
         case FlatFault => Halt(Faulted)
         case FlatValue(v, st', sel') =>
           if v != 0 then GoToOrNext(C, t, f.pc, st', sel') else GoTo(C, e, st', sel'))
      case NJump(t) => GoTo(C, t, f.st, f.sel)
      case NPesudo => At(f.pc + 1, f.st, f.sel)
      case NLabel(t) => GoToOrNext(C, t, f.pc, f.st, f.sel)
      case NCase(_, t) => GoToOrNext(C, t, f.pc, f.st, f.sel)
      case NDefault(t) => GoToOrNext(C, t, f.pc, f.st, f.sel)
      case NGoto(t) => GoTo(C, t, f.st, f.sel)
      case NBreak(t) => GoTo(C, t, f.st, f.sel)
      case NContinue(t) => GoTo(C, t, f.st, f.sel)
      case NReturn(e, t) =>
        if t != Some(exit) then Halt(Wild)
        else if e.None? then Halt(Returned(None, f.st))
        else
          match sem.eval(e.value, f.st)
          case Fault => Halt(Faulted)
          case Value(v, st') => Halt(Returned(Some(v), st'))
  }

  function FlatSteps(sem: Sem, C: seq<Cell>, exit: Id, f: Flat, n: nat): Flat
    decreases n
  {
    if n == 0 then f else FlatSteps(sem, C, exit, FlatStep(sem, C, exit, f), n - 1)
  }

  ghost predicate FlatEnds(sem: Sem, C: seq<Cell>, exit: Id, st: Store, out: Outcome) {
    exists n: nat :: FlatSteps(sem, C, exit, At(0, st, map[]), n) == Halt(out)
  }

  ghost predicate FlatDiverges(sem: Sem, C: seq<Cell>, exit: Id, st: Store) {
    forall n: nat :: !FlatSteps(sem, C, exit, At(0, st, map[]), n).Halt?
  }
}
