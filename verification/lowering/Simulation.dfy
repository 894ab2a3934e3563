/**
  Every step of the structured run is matched by machine steps. A structured
  step that costs no machine step makes the state smaller, so a diverging run
  is matched by a diverging run.
 */
module Simulation {
  import opened Wrappers
  import opened Syntax
  import opened Semantics
  import opened Lowering
  import opened WellFormed
  import opened FlatLayout
  import opened Matching
  import opened Targets

  // ----- Progress -----

  function Size(s: Stmt): nat
    decreases s, 1
  {
    match s
    case Label(_, b) => 1 + Size(b)
    case Case(_, _, b) => 1 + Size(b)
    case Default(_, b) => 1 + Size(b)
    case Block(ss) => 2 + SizeSeq(ss)
    case If(_, _, t, e) => 1 + Size(t) + if e.Some? then Size(e.value) else 0
    case DoWhile(b, _) => 1 + Size(b)
    case _ => 2
  }

  function SizeSeq(ss: seq<Stmt>): nat
    decreases ss, 0
  {
    if ss == [] then 0 else 1 + Size(ss[0]) + SizeSeq(ss[1..])
  }

  function SizeK(k: Kont): nat {
    match k
    case KSeq(ss, k') => 1 + SizeSeq(ss) + SizeK(k')
    case _ => 0
  }

  /** Bounds how many structured steps can go by without a machine step. */
  function Measure(s: State): nat {
    match s
    case Run(stmt, k, _) => Size(stmt) + SizeK(k)
    case Test(_, _, _, k, _) => 1 + SizeK(k)
    case Next(k, _) => SizeK(k)
    case Done(_) => 0
  }

  /** `m` machine steps from `f` lead to a match of `s'`, and no step at all only if `s'` is smaller than `bound`. */
  ghost predicate Matched(g: Prog, s': State, f: Flat, m: nat, w: StateWit, bound: nat) {
    MatchS(g, s', FSteps(g, f, m), w) && (m > 0 || Measure(s') < bound)
  }

  // ----- Straight-line code -----

  /** An optional expression has the effect of evaluating it. */
  lemma OptRuns(g: Prog, e: Expr, n: Id, f: Flat) returns (m: nat)
    requires OraclesSound(g.sem, g.o) && Unique(g.C) && f.At?
    requires Placed(g.C, f.pc, OptExpr(g.o, e, n).cells)
    ensures m == |OptExpr(g.o, e, n).cells|
    ensures match g.sem.eval(e, f.st)
            case Fault => m > 0 && FSteps(g, f, m) == Halt(Faulted)
            case Value(_, st') => FSteps(g, f, m) == At(f.pc + m, st', f.sel)
  {
    hide Find, Count;
    m := |OptExpr(g.o, e, n).cells|;
    if g.o.isMeanless(e) {
      assert g.sem.eval(e, f.st).Value?;
    } else {
      PlacedCell(g.C, f.pc, OptExpr(g.o, e, n).cells, 0);
      assert FSteps(g, f, 1) == FStep(g, f);
    }
  }

  lemma ConstTruth(g: Prog, e: Expr, st: Store)
    requires OraclesSound(g.sem, g.o) && g.o.isConst(e) && g.sem.eval(e, st).Value?
    ensures g.sem.eval(e, st).v != 0 <==> g.o.isTrue(e)
  {
  }

  lemma {:induction false} DecRuns(g: Prog, inits: seq<Option<Expr>>, n: Id, f: Flat) returns (m: nat)
    requires Unique(g.C) && f.At?
    requires Placed(g.C, f.pc, LowerDec(inits, n).cells)
    ensures match RunDec(g.sem, inits, f.st)
            case Fault => m > 0 && FSteps(g, f, m) == Halt(Faulted)
            case Value(_, st') => FSteps(g, f, m) == At(f.pc + |LowerDec(inits, n).cells|, st', f.sel)
  {
    hide Find, Count;
    m := 0;
    if inits != [] {
      if inits[0].None? {
        m := DecRuns(g, inits[1..], n, f);
      } else {
        var rest := LowerDec(inits[1..], n + 1).cells;
        var c := [Cell(n, NExpr(Plain(inits[0].value)))];
        PlacedAppend(g.C, f.pc, c, rest);
        PlacedCell(g.C, f.pc, c, 0);
        match g.sem.eval(inits[0].value, f.st)
        case Fault => m := 1;
        case Value(_, st') =>
          m := DecRuns(g, inits[1..], n + 1, At(f.pc + 1, st', f.sel));
          m := m + 1;
      }
    }
  }

  lemma SimDec(g: Prog, s: Stmt, k: Kont, f: Flat, w: StateWit) returns (m: nat, w': StateWit)
    requires Unique(g.C) && f.At? && s.Dec? && Runs(g, s, k, w.n, w.x, w.w, f.pc)
    ensures Matched(g, RunStep(g.sem, g.fn, s, k, f.st), f, m, w', Size(s) + SizeK(k))
  {
    hide MatchK, OkIn, LowerDec;
    m := DecRuns(g, s.inits, w.n, f);
    w' := w;
  }

  lemma SimExp(g: Prog, s: Stmt, k: Kont, f: Flat, w: StateWit) returns (m: nat, w': StateWit)
    requires Unique(g.C) && f.At? && s.Exp? && Runs(g, s, k, w.n, w.x, w.w, f.pc)
    ensures Matched(g, RunStep(g.sem, g.fn, s, k, f.st), f, m, w', Size(s) + SizeK(k))
  {
    hide MatchK, OkIn, Find, Count;
    PlacedCell(g.C, f.pc, Lower(g.o, s, w.n, w.x).cells, 0);
    m, w' := 1, w;
  }

  lemma SimReturn(g: Prog, s: Stmt, k: Kont, f: Flat, w: StateWit) returns (m: nat, w': StateWit)
    requires Unique(g.C) && f.At? && s.Return? && Runs(g, s, k, w.n, w.x, w.w, f.pc)
    ensures Matched(g, RunStep(g.sem, g.fn, s, k, f.st), f, m, w', Size(s) + SizeK(k))
  {
    assert w.x.rp == g.exit;
    hide MatchK, OkIn, Find, Count;
    PlacedCell(g.C, f.pc, Lower(g.o, s, w.n, w.x).cells, 0);
    m, w' := 1, w;
  }

  lemma SimLabel(g: Prog, s: Stmt, k: Kont, f: Flat, w: StateWit) returns (m: nat, w': StateWit)
    requires Unique(g.C) && f.At? && (s.Label? || s.Case? || s.Default?) && Runs(g, s, k, w.n, w.x, w.w, f.pc)
    ensures Matched(g, RunStep(g.sem, g.fn, s, k, f.st), f, m, w', Size(s) + SizeK(k))
  {
    EnterLabel(g, s, k, w.n, w.x, w.w, f.pc);
    hide Runs, MatchK, Find, Count;
    m, w' := 1, w;
  }

  lemma SimJump(g: Prog, s: Stmt, k: Kont, f: Flat, w: StateWit) returns (m: nat, w': StateWit)
    requires Unique(g.C) && f.At? && (s.Break? || s.Continue?) && Runs(g, s, k, w.n, w.x, w.w, f.pc)
    ensures Matched(g, RunStep(g.sem, g.fn, s, k, f.st), f, m, w', Size(s) + SizeK(k))
  {
    assert s.Break? ==> w.x.bp.Some?;
    assert s.Continue? ==> w.x.cp.Some?;
    PlacedCell(g.C, f.pc, Lower(g.o, s, w.n, w.x).cells, 0);
    hide MatchK, OkIn, Find, Count;
    m := 1;
    if s.Break? {
      var j, v, x := BreakLands(g, k, w.w, f.pc + 1, w.x);
      w' := StateWit(w.n, x, v);
    } else {
      var j, v, x := ContinueLands(g, k, w.w, f.pc + 1, w.x);
      w' := StateWit(w.n, x, v);
    }
  }

  /** The whole function body is placed at the start of the list. */
  lemma BodyPlaced(g: Prog)
    requires GoodProg(g)
    ensures RunsSeq(g, g.fn, KStop, g.exit + 1, Ctx(None, None, g.exit), End, 0)
  {
    hide LowerSeq, StaticSeq, JumpsKeptSeq, Lower;
    assert g.C[0..|g.C|] == g.C;
    assert MatchFrame(g, KStop, End, |g.C|, Ctx(None, None, g.exit));
  }

  lemma SimGoto(g: Prog, s: Stmt, k: Kont, f: Flat, w: StateWit) returns (m: nat, w': StateWit)
    requires GoodProg(g) && f.At? && s.Goto? && Runs(g, s, k, w.n, w.x, w.w, f.pc)
    requires s.target in KeptSeq(g.o, g.fn)
    ensures Matched(g, RunStep(g.sem, g.fn, s, k, f.st), f, m, w', Size(s) + SizeK(k))
  {
    PlacedCell(g.C, f.pc, Lower(g.o, s, w.n, w.x).cells, 0);
    hide MatchK, OkIn, Find, Count, Lower, KeptSeq;
    BodyPlaced(g);
    var n', x', v', pc' := LabelSeqLands(g, g.fn, s.target, KStop, g.exit + 1, Ctx(None, None, g.exit), End, 0);
    m, w' := 1, StateWit(n', x', v');
  }

  lemma SimBlock(g: Prog, s: Stmt, k: Kont, f: Flat, w: StateWit) returns (m: nat, w': StateWit)
    requires f.At? && s.Block? && Runs(g, s, k, w.n, w.x, w.w, f.pc)
    ensures Matched(g, RunStep(g.sem, g.fn, s, k, f.st), f, m, w', Size(s) + SizeK(k))
  {
    hide OkIn, Lower;
    EnterBlock(g, s, k, w.n, w.x, w.w, f.pc);
    m, w' := 0, StateWit(w.n, w.x, Frame(f.pc, w.n, w.x, w.w));
    assert MatchFrame(g, KSeq(s.stmts, k), w'.w, f.pc, w.x);
  }

  // ----- Conditionals -----

  lemma FoldsConst(o: Oracles, c: Expr, t: Stmt, e: Option<Stmt>)
    requires FoldsIf(o, c, t, e)
    ensures o.isConst(c)
  {
  }

  lemma SimFoldedIf(g: Prog, s: Stmt, k: Kont, f: Flat, w: StateWit) returns (m: nat, w': StateWit)
    requires Unique(g.C) && OraclesSound(g.sem, g.o) && f.At? && s.If? && FoldsIf(g.o, s.cond, s.thn, s.els)
    requires Runs(g, s, k, w.n, w.x, w.w, f.pc)
    ensures Matched(g, RunStep(g.sem, g.fn, s, k, f.st), f, m, w', Size(s) + SizeK(k))
  {
    hide Runs, MatchK, OkIn, Lower, OptExpr, OraclesSound, FoldsIf, Placed, Find, Count, Unique;
    var pre := OptExpr(g.o, s.cond, w.n);
    EnterFoldedIf(g, s, k, w.n, w.x, w.w, f.pc);
    m := OptRuns(g, s.cond, w.n, f);
    w' := StateWit(pre.n, w.x, w.w);
    FoldsConst(g.o, s.cond, s.thn, s.els);
    if g.sem.eval(s.cond, f.st).Value? { ConstTruth(g, s.cond, f.st); }
  }

  lemma SimIf(g: Prog, s: Stmt, k: Kont, f: Flat, w: StateWit) returns (m: nat, w': StateWit)
    requires Unique(g.C) && f.At? && s.If? && !FoldsIf(g.o, s.cond, s.thn, s.els)
    requires Runs(g, s, k, w.n, w.x, w.w, f.pc)
    ensures Matched(g, RunStep(g.sem, g.fn, s, k, f.st), f, m, w', Size(s) + SizeK(k))
  {
    hide MatchK, OkIn, Lower, JoinIf, Placed, Find, Count, SilentTo, FoldsIf;
    EnterThen(g, s, k, w.n, w.x, w.w, f.pc);
    EnterElse(g, s, k, w.n, w.x, w.w, f.pc);
    IfShape(g.o, s, w.n, w.x);
    var T, F, end := Then(g.o, s, w.n, w.x), Else(g.o, s, w.n, w.x), IfEnd(g, s, w.n, w.x, f.pc);
    PlacedIf(g.C, f.pc, s.id, s.cond, T.cells, F.cells, F.n);
    m := 1;
    w' := w;
    match g.sem.eval(s.cond, f.st)
    case Fault =>
    case Value(v, st') =>
      if v != 0 { w' := StateWit(w.n, w.x, ThenWit(w.w, end, T.cells, F.cells)); }
      else { w' := StateWit(T.n, w.x, ElseWit(w.w, end, T.cells, F.cells)); }
  }

  // ----- Loops -----

  /** The top of a tested loop leads into the body or to the break point. */
  lemma TestedHeadRuns(g: Prog, top: Id, branch: Id, c: Expr, B: seq<Cell>, bp: Id, f: Flat)
    requires Unique(g.C) && f.At? && Find(g.C, bp) < |g.C|
    requires Placed(g.C, f.pc, TestedHead(top, branch, c, B, bp)) && Placed(g.C, f.pc + 2, B)
    ensures match g.sem.eval(c, f.st)
            case Fault => FSteps(g, f, 2) == Halt(Faulted)
            case Value(v, st') =>
              FSteps(g, f, 2) == At(if v != 0 then f.pc + 2 else Find(g.C, bp), st', f.sel)
  {
    hide Find, Count;
    PlacedCell(g.C, f.pc, TestedHead(top, branch, c, B, bp), 0);
    PlacedCell(g.C, f.pc, TestedHead(top, branch, c, B, bp), 1);
    if B != [] { PlacedCell(g.C, f.pc + 2, B, 0); }
    assert FStep(g, f) == At(f.pc + 1, f.st, f.sel);
    assert FSteps(g, f, 2) == FStep(g, FStep(g, f));
  }

  /** The top of a loop on a true constant leads into the body. */
  lemma EndlessHeadRuns(g: Prog, top: Id, c: Expr, n: Id, f: Flat) returns (m: nat)
    requires Unique(g.C) && OraclesSound(g.sem, g.o) && f.At?
    requires Placed(g.C, f.pc, [Cell(top, NPesudo)] + OptExpr(g.o, c, n).cells)
    ensures m == 1 + |OptExpr(g.o, c, n).cells|
    ensures match g.sem.eval(c, f.st)
            case Fault => FSteps(g, f, m) == Halt(Faulted)
            case Value(v, st') => FSteps(g, f, m) == At(f.pc + m, st', f.sel)
  {
    hide Find, Count, OptExpr, OraclesSound;
    PlacedAppend(g.C, f.pc, [Cell(top, NPesudo)], OptExpr(g.o, c, n).cells);
    PlacedCell(g.C, f.pc, [Cell(top, NPesudo)], 0);
    m := OptRuns(g, c, n, At(f.pc + 1, f.st, f.sel));
    m := m + 1;
  }

  /** What follows a statement is resumed at its end. */
  lemma RunsResume(g: Prog, s: Stmt, k: Kont, n: Id, x: Ctx, w: Wit, pc: nat)
    requires Runs(g, s, k, n, x, w, pc)
    ensures x.rp == g.exit && Placed(g.C, pc, Lower(g.o, s, n, x).cells)
    ensures MatchK(g, k, w, pc + |Lower(g.o, s, n, x).cells|, x)
  {
    hide Lower, MatchK;
  }

  lemma EndlessWhileTest(g: Prog, c: Expr, b: Stmt, k: Kont, n: Id, x: Ctx, w: Wit, f: Flat)
    returns (m: nat, w': StateWit)
    requires Unique(g.C) && OraclesSound(g.sem, g.o) && f.At?
    requires FoldsLoop(g.o, c, b) && g.o.isTrue(c)
    requires Runs(g, While(c, b), k, n, x, w, f.pc)
    ensures m > 0 && MatchS(g, LoopTest(g.sem, c, b, KWhile(c, b, k), k, f.st), FSteps(g, f, m), w')
  {
    hide Runs, MatchK, Lower, Find, Count, SilentTo, Placed, Unique, OraclesSound, OptExpr;
    assert !DropsBody(g.o, c, b) && g.o.isConst(c);
    RunsResume(g, While(c, b), k, n, x, w, f.pc);
    hide FoldsLoop;
    EnterWhile(g, While(c, b), k, n, x, w, f.pc);
    PlacedWhile(g.o, g.C, f.pc, c, b, n, x);
    w' := StateWit(WhileBp(g.o, c, b, n) + 1, WhileCtx(g.o, c, b, n, g.exit), Hop(f.pc, Frame(f.pc, n, x, w)));
    m := EndlessHeadRuns(g, n, c, n + 1, f);
    if g.sem.eval(c, f.st).Value? { ConstTruth(g, c, f.st); }
  }

  lemma TestedWhileTest(g: Prog, c: Expr, b: Stmt, k: Kont, n: Id, x: Ctx, w: Wit, f: Flat)
    returns (m: nat, w': StateWit)
    requires Unique(g.C) && f.At? && !FoldsLoop(g.o, c, b)
    requires Runs(g, While(c, b), k, n, x, w, f.pc)
    ensures m > 0 && MatchS(g, LoopTest(g.sem, c, b, KWhile(c, b, k), k, f.st), FSteps(g, f, m), w')
  {
    hide Runs, MatchK, Lower, Find, Count, SilentTo, Placed, Unique, FoldsLoop;
    RunsResume(g, While(c, b), k, n, x, w, f.pc);
    EnterWhile(g, While(c, b), k, n, x, w, f.pc);
    PlacedWhile(g.o, g.C, f.pc, c, b, n, x);
    var B := WhileBody(g.o, c, b, n, g.exit).cells;
    m := 2;
    TestedHeadRuns(g, n, n + 1, c, B, n + 2, f);
    var e := f.pc + 2 + |B|;
    HopFirst(g, k, w, e + 1, e + 2, x);
    w' := StateWit(WhileBp(g.o, c, b, n) + 1, WhileCtx(g.o, c, b, n, g.exit), Hop(f.pc, Frame(f.pc, n, x, w)));
    if g.sem.eval(c, f.st).Value? && g.sem.eval(c, f.st).v == 0 { w' := StateWit(n, x, Hop(e + 2, w)); }
  }

  /** From a while loop's continue point the machine tests the loop. */
  lemma WhileTest(g: Prog, c: Expr, b: Stmt, k: Kont, n: Id, x: Ctx, w: Wit, f: Flat) returns (m: nat, w': StateWit)
    requires Unique(g.C) && OraclesSound(g.sem, g.o) && f.At? && !DropsBody(g.o, c, b)
    requires Runs(g, While(c, b), k, n, x, w, f.pc)
    ensures m > 0 && MatchS(g, LoopTest(g.sem, c, b, KWhile(c, b, k), k, f.st), FSteps(g, f, m), w')
  {
    hide Runs, MatchK, Lower, Unique, OraclesSound, MatchS, LoopTest, FoldsLoop;
    if FoldsLoop(g.o, c, b) {
      m, w' := EndlessWhileTest(g, c, b, k, n, x, w, f);
    } else {
      m, w' := TestedWhileTest(g, c, b, k, n, x, w, f);
    }
  }

  lemma DroppedShapes(o: Oracles, c: Expr, inc: Expr, b: Stmt, n: Id, x: Ctx)
    requires DropsBody(o, c, b)
    ensures Lower(o, While(c, b), n, x) == OptExpr(o, c, n)
    ensures LowerForTest(o, c, inc, b, n, x) == OptExpr(o, c, n)
    ensures o.isConst(c) && !o.isTrue(c)
  {
  }

  /** A dropped loop tests its false constant once and is left. */
  lemma DroppedTest(g: Prog, c: Expr, b: Stmt, loop: Kont, k: Kont, n: Id, x: Ctx, w: Wit, f: Flat, bound: nat)
    returns (m: nat, w': StateWit)
    requires Unique(g.C) && OraclesSound(g.sem, g.o) && f.At? && g.o.isConst(c) && !g.o.isTrue(c)
    requires Placed(g.C, f.pc, OptExpr(g.o, c, n).cells) && SizeK(k) < bound
    requires MatchK(g, k, w, f.pc + |OptExpr(g.o, c, n).cells|, x)
    ensures Matched(g, LoopTest(g.sem, c, b, loop, k, f.st), f, m, w', bound)
  {
    hide MatchK, OptExpr, Placed, Unique, OraclesSound;
    m := OptRuns(g, c, n, f);
    w' := StateWit(n, x, w);
    if g.sem.eval(c, f.st).Value? { ConstTruth(g, c, f.st); }
  }

  lemma SimWhile(g: Prog, c: Expr, b: Stmt, k: Kont, n: Id, x: Ctx, w: Wit, f: Flat) returns (m: nat, w': StateWit)
    requires Unique(g.C) && OraclesSound(g.sem, g.o) && f.At?
    requires Runs(g, While(c, b), k, n, x, w, f.pc)
    ensures Matched(g, RunStep(g.sem, g.fn, While(c, b), k, f.st), f, m, w', Size(While(c, b)) + SizeK(k))
  {
    hide Runs, MatchK, Lower, Unique, OraclesSound, MatchS, LoopTest;
    if DropsBody(g.o, c, b) {
      RunsResume(g, While(c, b), k, n, x, w, f.pc);
      DroppedShapes(g.o, c, c, b, n, x);
      hide DropsBody, OptExpr, Matched;
      m, w' := DroppedTest(g, c, b, KWhile(c, b, k), k, n, x, w, f, 2 + SizeK(k));
    } else {
      m, w' := WhileTest(g, c, b, k, n, x, w, f);
    }
  }

  lemma SimDo(g: Prog, b: Stmt, c: Expr, k: Kont, n: Id, x: Ctx, w: Wit, f: Flat) returns (m: nat, w': StateWit)
    requires Unique(g.C) && f.At?
    requires Runs(g, DoWhile(b, c), k, n, x, w, f.pc)
    ensures Matched(g, RunStep(g.sem, g.fn, DoWhile(b, c), k, f.st), f, m, w', Size(DoWhile(b, c)) + SizeK(k))
  {
    hide Runs, MatchK, Lower, Find, Count, Placed, Unique, FoldsLoop;
    RunsResume(g, DoWhile(b, c), k, n, x, w, f.pc);
    EnterDo(g, DoWhile(b, c), k, n, x, w, f.pc);
    PlacedDo(g.o, g.C, f.pc, c, b, n, x);
    m := DoHead(g.o, c, b);
    w' := StateWit(n + 2, DoCtx(n, g.exit), Frame(f.pc, n, x, w));
    assert m == 1 ==> FSteps(g, f, 1) == FStep(g, f);
  }

  /** What the frame of a do loop at its continue point says. */
  lemma DoFrame(g: Prog, b: Stmt, c: Expr, k: Kont, w: Wit, pc: nat, x: Ctx)
    requires Unique(g.C) && MatchFrame(g, KDo(b, c, k), w, pc, x)
    ensures w.Frame? && Runs(g, DoWhile(b, c), k, w.n, w.x, w.tail, w.start)
    ensures pc == w.start + DoHead(g.o, c, b) + |DoBody(g.o, b, w.n, g.exit).cells|
    ensures w == Frame(w.start, w.n, w.x, w.tail) && w.x.rp == g.exit
    ensures Placed(g.C, pc, DoTail(g.o, c, b, w.n, g.exit))
    ensures w.start + |Lower(g.o, DoWhile(b, c), w.n, w.x).cells| == pc + |DoTail(g.o, c, b, w.n, g.exit)|
  {
    assert w.x.rp == g.exit;
    hide Lower, Find, OkIn, DoTail;
    PlacedDo(g.o, g.C, w.start, c, b, w.n, w.x);
  }

  /** The jump back to a do loop's first cell. */
  lemma DoAgain(g: Prog, b: Stmt, c: Expr, k: Kont, n: Id, x: Ctx, w: Wit, start: nat, f: Flat)
    requires Unique(g.C) && Runs(g, DoWhile(b, c), k, n, x, w, start) && !DropsBody(g.o, c, b)
    requires f.At? && f.pc == start
    ensures Find(g.C, DoBody(g.o, b, n, g.exit).n) == start < |g.C|
    ensures MatchS(g, Run(b, KDo(b, c, k), f.st), FSteps(g, f, 1),
                   StateWit(n + 2, DoCtx(n, g.exit), Frame(start, n, x, w)))
  {
    hide Runs, MatchK, Lower, Find, Count, Placed, Unique, FoldsLoop;
    RunsResume(g, DoWhile(b, c), k, n, x, w, start);
    EnterDo(g, DoWhile(b, c), k, n, x, w, start);
    PlacedDo(g.o, g.C, start, c, b, n, x);
    assert FSteps(g, f, 1) == FStep(g, f);
  }

  /** A do loop on a false constant: the constant, then the break point. */
  lemma NextDoOnce(g: Prog, b: Stmt, c: Expr, k: Kont, w: Wit, f: Flat, x: Ctx) returns (m: nat, w': StateWit)
    requires Unique(g.C) && OraclesSound(g.sem, g.o) && f.At? && DropsBody(g.o, c, b)
    requires MatchFrame(g, KDo(b, c, k), w, f.pc, x)
    ensures m > 0 && MatchS(g, NextStep(g.sem, KDo(b, c, k), f.st), FSteps(g, f, m), w')
  {
    hide MatchFrame, MatchK, Lower, Find, Count, Unique, OraclesSound, Runs;
    DoFrame(g, b, c, k, w, f.pc, x);
    RunsResume(g, DoWhile(b, c), k, w.n, w.x, w.tail, w.start);
    var pre := OptExpr(g.o, c, DoBody(g.o, b, w.n, g.exit).n);
    var cp, bp := [Cell(w.n, NPesudo)], [Cell(w.n + 1, NPesudo)];
    assert DoTail(g.o, c, b, w.n, g.exit) == cp + pre.cells + bp;
    assert g.o.isConst(c) && !g.o.isTrue(c);
    hide DoTail, OptExpr, FoldsLoop, DropsBody;
    Placed3(g.C, f.pc, cp, pre.cells, bp);
    PlacedCell(g.C, f.pc, cp, 0);
    PlacedCell(g.C, f.pc + 1 + |pre.cells|, bp, 0);
    hide Placed;
    m := OptRuns(g, c, DoBody(g.o, b, w.n, g.exit).n, At(f.pc + 1, f.st, f.sel));
    m := m + 1;
    HopFirst(g, k, w.tail, f.pc + m, f.pc + m + 1, w.x);
    w' := StateWit(w.n, w.x, Hop(f.pc + m + 1, w.tail));
    if g.sem.eval(c, f.st).Value? { ConstTruth(g, c, f.st); }
  }

  /** A do loop on a true constant: the constant, then back to the top. */
  lemma NextDoEndless(g: Prog, b: Stmt, c: Expr, k: Kont, w: Wit, f: Flat, x: Ctx) returns (m: nat, w': StateWit)
    requires Unique(g.C) && OraclesSound(g.sem, g.o) && f.At? && FoldsLoop(g.o, c, b) && g.o.isTrue(c)
    requires MatchFrame(g, KDo(b, c, k), w, f.pc, x)
    ensures m > 0 && MatchS(g, NextStep(g.sem, KDo(b, c, k), f.st), FSteps(g, f, m), w')
  {
    hide MatchFrame, MatchK, Lower, Find, Count, Unique, OraclesSound, Runs, MatchS;
    DoFrame(g, b, c, k, w, f.pc, x);
    var B := DoBody(g.o, b, w.n, g.exit);
    var pre := OptExpr(g.o, c, B.n + 1);
    var cp, back := [Cell(w.n, NPesudo)], [Cell(pre.n, NJump(Some(B.n))), Cell(w.n + 1, NPesudo)];
    assert DoTail(g.o, c, b, w.n, g.exit) == cp + pre.cells + back;
    assert g.o.isConst(c) && !DropsBody(g.o, c, b);
    hide DoTail, OptExpr, FoldsLoop, DropsBody;
    Placed3(g.C, f.pc, cp, pre.cells, back);
    PlacedCell(g.C, f.pc, cp, 0);
    PlacedCell(g.C, f.pc + 1 + |pre.cells|, back, 0);
    hide Placed;
    var a := OptRuns(g, c, B.n + 1, At(f.pc + 1, f.st, f.sel));
    w' := StateWit(w.n + 2, DoCtx(w.n, g.exit), w);
    m := 1 + a;
    match g.sem.eval(c, f.st)
    case Fault => DoneMatches(g, Faulted, FSteps(g, f, m), w');
    case Value(v, st') =>
      ConstTruth(g, c, f.st);
      var top := At(w.start, st', f.sel);
      DoAgain(g, b, c, k, w.n, w.x, w.tail, w.start, top);
      FStepsAdd(g, f, 1 + a, 2);
      assert FSteps(g, At(f.pc + 1 + a, st', f.sel), 2) == FSteps(g, top, 1);
      m := m + 2;
  }

  lemma DoneMatches(g: Prog, out: Outcome, f: Flat, w: StateWit)
    requires f == Halt(out)
    ensures MatchS(g, Done(out), f, w)
  {
  }

  /** A do loop on any other condition: the branch back to the top, or on to the break point. */
  lemma NextDoTested(g: Prog, b: Stmt, c: Expr, k: Kont, w: Wit, f: Flat, x: Ctx) returns (m: nat, w': StateWit)
    requires Unique(g.C) && f.At? && !FoldsLoop(g.o, c, b)
    requires MatchFrame(g, KDo(b, c, k), w, f.pc, x)
    ensures m > 0 && MatchS(g, NextStep(g.sem, KDo(b, c, k), f.st), FSteps(g, f, m), w')
  {
    hide MatchFrame, MatchK, Lower, Find, Count, Unique, Runs;
    DoFrame(g, b, c, k, w, f.pc, x);
    RunsResume(g, DoWhile(b, c), k, w.n, w.x, w.tail, w.start);
    var B := DoBody(g.o, b, w.n, g.exit);
    var tail :=
      [Cell(w.n, NPesudo), Cell(B.n + 1, NBranch(Plain(c), Some(B.n), Some(w.n + 1))), Cell(w.n + 1, NPesudo)];
    assert DoTail(g.o, c, b, w.n, g.exit) == tail;
    assert !DropsBody(g.o, c, b);
    hide DoTail, FoldsLoop, DropsBody;
    PlacedCell(g.C, f.pc, tail, 0);
    PlacedCell(g.C, f.pc, tail, 1);
    PlacedCell(g.C, f.pc, tail, 2);
    hide Placed;
    w' := StateWit(w.n, w.x, Hop(f.pc + 3, w.tail));
    m := 2;
    assert FSteps(g, f, 2) == FStep(g, At(f.pc + 1, f.st, f.sel));
    match g.sem.eval(c, f.st)
    case Fault =>
    case Value(v, st') =>
      DoAgain(g, b, c, k, w.n, w.x, w.tail, w.start, At(w.start, st', f.sel));
      if v != 0 {
        FStepsAdd(g, f, 2, 1);
        m, w' := 3, StateWit(w.n + 2, DoCtx(w.n, g.exit), w);
      } else {
        HopFirst(g, k, w.tail, f.pc + 2, f.pc + 3, w.x);
      }
  }

  lemma SimFor(g: Prog, i: Expr, c: Expr, inc: Expr, b: Stmt, k: Kont, n: Id, x: Ctx, w: Wit, f: Flat)
    returns (m: nat, w': StateWit)
    requires Unique(g.C) && OraclesSound(g.sem, g.o) && f.At?
    requires Runs(g, For(i, c, inc, b), k, n, x, w, f.pc)
    ensures Matched(g, RunStep(g.sem, g.fn, For(i, c, inc, b), k, f.st), f, m, w', Size(For(i, c, inc, b)) + SizeK(k))
  {
    hide Runs, MatchK, Lower, LowerForTest, OptExpr, Unique, OraclesSound, Placed, Tests;
    EnterForInit(g, For(i, c, inc, b), k, n, x, w, f.pc);
    m := OptRuns(g, i, n, f);
    w' := StateWit(OptExpr(g.o, i, n).n, x, w);
  }

  lemma TestsResume(g: Prog, c: Expr, inc: Expr, b: Stmt, k: Kont, n: Id, x: Ctx, w: Wit, pc: nat)
    requires Tests(g, c, inc, b, k, n, x, w, pc)
    ensures x.rp == g.exit && Placed(g.C, pc, LowerForTest(g.o, c, inc, b, n, x).cells)
    ensures MatchK(g, k, w, pc + |LowerForTest(g.o, c, inc, b, n, x).cells|, x)
  {
    hide LowerForTest, MatchK;
  }

  lemma EndlessForTest(g: Prog, c: Expr, inc: Expr, b: Stmt, k: Kont, n: Id, x: Ctx, w: Wit, f: Flat)
    returns (m: nat, w': StateWit)
    requires Unique(g.C) && OraclesSound(g.sem, g.o) && f.At?
    requires FoldsLoop(g.o, c, b) && g.o.isTrue(c)
    requires Tests(g, c, inc, b, k, n, x, w, f.pc)
    ensures m > 0 && MatchS(g, LoopTest(g.sem, c, b, KFor(c, inc, b, k), k, f.st), FSteps(g, f, m), w')
  {
    hide Runs, MatchK, LowerForTest, Find, Count, SilentTo, Placed, Unique, OraclesSound, OptExpr, Tests;
    assert !DropsBody(g.o, c, b) && g.o.isConst(c);
    TestsResume(g, c, inc, b, k, n, x, w, f.pc);
    hide FoldsLoop;
    EnterFor(g, c, inc, b, k, n, x, w, f.pc);
    PlacedFor(g.o, g.C, f.pc, c, inc, b, n, x);
    w' := StateWit(ForBp(g.o, c, b, n) + 1, ForCtx(g.o, c, b, n, g.exit), Frame(f.pc, n, x, w));
    m := EndlessHeadRuns(g, n, c, n + 2, f);
    if g.sem.eval(c, f.st).Value? { ConstTruth(g, c, f.st); }
  }

  lemma TestedForTest(g: Prog, c: Expr, inc: Expr, b: Stmt, k: Kont, n: Id, x: Ctx, w: Wit, f: Flat)
    returns (m: nat, w': StateWit)
    requires Unique(g.C) && f.At? && !FoldsLoop(g.o, c, b)
    requires Tests(g, c, inc, b, k, n, x, w, f.pc)
    ensures m > 0 && MatchS(g, LoopTest(g.sem, c, b, KFor(c, inc, b, k), k, f.st), FSteps(g, f, m), w')
  {
    hide Runs, MatchK, Lower, LowerForTest, Find, Count, SilentTo, Placed, Unique, FoldsLoop, Tests, OptExpr;
    TestsResume(g, c, inc, b, k, n, x, w, f.pc);
    EnterFor(g, c, inc, b, k, n, x, w, f.pc);
    PlacedFor(g.o, g.C, f.pc, c, inc, b, n, x);
    var B := ForBody(g.o, c, b, n, g.exit);
    m := 2;
    TestedHeadRuns(g, n, n + 2, c, B.cells, n + 3, f);
    var e := f.pc + 2 + |B.cells| + 1 + |OptExpr(g.o, inc, B.n).cells|;
    HopFirst(g, k, w, e + 1, e + 2, x);
    w' := StateWit(ForBp(g.o, c, b, n) + 1, ForCtx(g.o, c, b, n, g.exit), Frame(f.pc, n, x, w));
    if g.sem.eval(c, f.st).Value? && g.sem.eval(c, f.st).v == 0 { w' := StateWit(n, x, Hop(e + 2, w)); }
  }

  lemma SimTest(g: Prog, c: Expr, inc: Expr, b: Stmt, k: Kont, n: Id, x: Ctx, w: Wit, f: Flat)
    returns (m: nat, w': StateWit)
    requires Unique(g.C) && OraclesSound(g.sem, g.o) && f.At?
    requires Tests(g, c, inc, b, k, n, x, w, f.pc)
    ensures Matched(g, LoopTest(g.sem, c, b, KFor(c, inc, b, k), k, f.st), f, m, w', 1 + SizeK(k))
  {
    hide Tests, MatchK, LowerForTest, OptExpr, Unique, OraclesSound, MatchS, LoopTest;
    if DropsBody(g.o, c, b) {
      TestsResume(g, c, inc, b, k, n, x, w, f.pc);
      DroppedShapes(g.o, c, inc, b, n, x);
      m, w' := DroppedTest(g, c, b, KFor(c, inc, b, k), k, n, x, w, f, 1 + SizeK(k));
    } else if FoldsLoop(g.o, c, b) {
      m, w' := EndlessForTest(g, c, inc, b, k, n, x, w, f);
    } else {
      m, w' := TestedForTest(g, c, inc, b, k, n, x, w, f);
    }
  }

  /** What the frame of a for loop at its continue point says. */
  lemma ForFrame(g: Prog, c: Expr, inc: Expr, b: Stmt, k: Kont, w: Wit, pc: nat, x: Ctx)
    requires Unique(g.C) && MatchFrame(g, KFor(c, inc, b, k), w, pc, x)
    ensures w.Frame? && Tests(g, c, inc, b, k, w.n, w.x, w.tail, w.start)
    ensures var B := ForBody(g.o, c, b, w.n, g.exit);
            var post := OptExpr(g.o, inc, B.n).cells;
            && pc < |g.C| && g.C[pc].node == NPesudo
            && Placed(g.C, pc + 1, post) && SilentTo(g.C, pc + 1 + |post|) == Some(w.start)
  {
    hide LowerForTest, Find, OptExpr, MatchK, SilentTo, ForHead;
    PlacedFor(g.o, g.C, w.start, c, inc, b, w.n, w.x);
  }

  lemma SilentStep(g: Prog, pc: nat, to: nat, st: Store, sel: map<Id, int>)
    requires SilentTo(g.C, pc) == Some(to)
    ensures FStep(g, At(pc, st, sel)) == At(to, st, sel)
  {
    hide Find;
  }

  /** From a for loop's continue point: the last clause, then back to the test. */
  lemma NextFor(g: Prog, c: Expr, inc: Expr, b: Stmt, k: Kont, w: Wit, f: Flat, x: Ctx) returns (m: nat, w': StateWit)
    requires Unique(g.C) && OraclesSound(g.sem, g.o) && f.At?
    requires MatchFrame(g, KFor(c, inc, b, k), w, f.pc, x)
    ensures m > 0 && MatchS(g, NextStep(g.sem, KFor(c, inc, b, k), f.st), FSteps(g, f, m), w')
  {
    hide MatchFrame, MatchK, Tests, OptExpr, Find, Unique, OraclesSound, SilentTo, Placed;
    ForFrame(g, c, inc, b, k, w, f.pc, x);
    var n := ForBody(g.o, c, b, w.n, g.exit).n;
    var a := OptRuns(g, inc, n, At(f.pc + 1, f.st, f.sel));
    w' := StateWit(w.n, w.x, w.tail);
    m := 1 + a;
    match g.sem.eval(inc, f.st)
    case Fault =>
    case Value(_, st') =>
      SilentStep(g, f.pc + 1 + a, w.start, st', f.sel);
      FStepsAdd(g, f, 1 + a, 1);
      m := m + 1;
  }

  // ----- Switches -----

  lemma {:induction false} OwnLabelsIn(s: Stmt, l: CaseLabel)
    requires l in OwnLabels(s)
    ensures l.id in AllLabels(s)
    decreases s, 1
  {
    match s
    case Label(_, b) => OwnLabelsIn(b, l);
    case Case(id, e, b) => if l != CaseLabel(id, e) { OwnLabelsIn(b, l); }
    case Default(id, b) => if l != DefaultLabel(id) { OwnLabelsIn(b, l); }
    case Block(ss) => OwnLabelsSeqIn(ss, l);
    case If(_, _, t, e) => if l in OwnLabels(t) { OwnLabelsIn(t, l); } else { OwnLabelsIn(e.value, l); }
    case While(_, b) => OwnLabelsIn(b, l);
    case DoWhile(b, _) => OwnLabelsIn(b, l);
    case For(_, _, _, b) => OwnLabelsIn(b, l);
    case _ =>
  }

  lemma {:induction false} OwnLabelsSeqIn(ss: seq<Stmt>, l: CaseLabel)
    requires l in OwnLabelsSeq(ss)
    ensures l.id in AllLabelsSeq(ss)
    decreases ss, 0
  {
    if l in OwnLabels(ss[0]) { OwnLabelsIn(ss[0], l); } else { OwnLabelsSeqIn(ss[1..], l); }
  }

  /** A selected label is one of the list's, and nothing is selected only if no label fits. */
  lemma {:induction false} SelectCaseMeans(sem: Sem, ls: seq<CaseLabel>, v: int)
    ensures match SelectCase(sem, ls, v)
            case Some(id) => exists l :: l in ls && IsCaseFor(sem, l, v) && l.id == id
            case None => forall l :: l in ls ==> !IsCaseFor(sem, l, v)
  {
    if ls != [] && !IsCaseFor(sem, ls[0], v) {
      SelectCaseMeans(sem, ls[1..], v);
      assert forall l :: l in ls <==> l == ls[0] || l in ls[1..];
    }
  }

  /** The values of one 64-bit range, wherever it begins; unsigned and signed long are two of them. */
  predicate InRange(v: int, least: int) {
    least <= v < least + TWO_TO_THE_64
  }

  lemma ULongInjective(a: int, b: int, least: int)
    requires InRange(a, least) && InRange(b, least)
    ensures ULong(a) == ULong(b) <==> a == b
  {
    var p, q := a / TWO_TO_THE_64, b / TWO_TO_THE_64;
    assert a == p * TWO_TO_THE_64 + ULong(a) && b == q * TWO_TO_THE_64 + ULong(b);
  }

  /** With selector and cases in one 64-bit range, the case selected is one with the selector's very value. */
  lemma SelectCasePlain(sem: Sem, ls: seq<CaseLabel>, v: int, least: int)
    requires InRange(v, least)
    requires forall l :: l in ls && l.CaseLabel? ==> InRange(sem.caseValue(l.e), least)
    ensures match SelectCase(sem, ls, v)
            case Some(id) => exists l :: l in ls && l.CaseLabel? && sem.caseValue(l.e) == v && l.id == id
            case None => forall l :: l in ls && l.CaseLabel? ==> sem.caseValue(l.e) != v
  {
    hide ULong;
    SelectCaseMeans(sem, ls, v);
    forall l | l in ls && l.CaseLabel?
      ensures IsCaseFor(sem, l, v) <==> sem.caseValue(l.e) == v
    {
      ULongInjective(sem.caseValue(l.e), v, least);
    }
  }

  lemma {:induction false} SelectDefaultMeans(ls: seq<CaseLabel>)
    ensures match SelectDefault(ls)
            case Some(id) => exists l :: l in ls && l.DefaultLabel? && l.id == id
            case None => forall l :: l in ls ==> !l.DefaultLabel?
  {
    if ls != [] && !ls[0].DefaultLabel? {
      SelectDefaultMeans(ls[1..]);
      assert forall l :: l in ls <==> l == ls[0] || l in ls[1..];
    }
  }

  /** A switch enters at the same label whatever the order of its label list. */
  lemma SelectAnyOrder(sem: Sem, labels: seq<CaseLabel>, own: seq<CaseLabel>, v: int)
    requires LabelsAgree(sem, labels, own)
    ensures Select(sem, labels, v) == Select(sem, own, v)
  {
    SelectCaseMeans(sem, labels, v);
    SelectCaseMeans(sem, own, v);
    SelectDefaultMeans(labels);
    SelectDefaultMeans(own);
    forall a, b | a in labels && b in labels && Clash(sem, a, b) ensures a == b {
      var i :| 0 <= i < |labels| && labels[i] == a;
      var j :| 0 <= j < |labels| && labels[j] == b;
      assert Clash(sem, b, a);
    }
  }

  lemma {:induction false} DefaultTargetMeans(sem: Sem, labels: seq<CaseLabel>, t: Id)
    requires forall i, j :: 0 <= i < j < |labels| ==> !Clash(sem, labels[i], labels[j])
    ensures DefaultTarget(labels, t) == match SelectDefault(labels) case Some(id) => id case None => t
  {
    if labels != [] {
      forall i, j | 0 <= i < j < |labels[1..]| ensures !Clash(sem, labels[1..][i], labels[1..][j]) {
        assert !Clash(sem, labels[i + 1], labels[j + 1]);
      }
      DefaultTargetMeans(sem, labels[1..], if labels[0].DefaultLabel? then labels[0].id else t);
      if labels[0].DefaultLabel? {
        SelectDefaultMeans(labels[1..]);
        assert forall j :: 0 < j < |labels| ==> !Clash(sem, labels[0], labels[j]);
      }
    }
  }

  /** Where the compare chain sends the selector value. */
  function ChainTarget(sem: Sem, labels: seq<CaseLabel>, dflt: Id, v: int): Id {
    match SelectCase(sem, labels, v) case Some(id) => id case None => dflt
  }

  lemma {:induction false} ChainRuns(g: Prog, labels: seq<CaseLabel>, sym: Id, dflt: Id, n: Id, v: int, f: Flat)
    returns (m: nat)
    requires Unique(g.C) && f.At? && sym in f.sel && f.sel[sym] == ULong(v)
    requires forall l :: l in labels ==> PureCase(g.sem, l) && (l.CaseLabel? ==> Find(g.C, l.id) < |g.C|)
    requires Find(g.C, dflt) < |g.C|
    requires Placed(g.C, f.pc, Chain(labels, sym, dflt, n).cells)
    ensures FSteps(g, f, m) == At(Find(g.C, ChainTarget(g.sem, labels, dflt, v)), f.st, f.sel)
  {
    hide Find, Count, Unique;
    var cells := Chain(labels, sym, dflt, n).cells;
    if labels == [] {
      PlacedCell(g.C, f.pc, cells, 0);
      m := 1;
      assert FSteps(g, f, 1) == FStep(g, f);
    } else if labels[0].DefaultLabel? {
      m := ChainRuns(g, labels[1..], sym, dflt, n, v, f);
    } else {
      var rest := Chain(labels[1..], sym, dflt, n + 2).cells;
      var two := [Cell(n + 1, NBranch(SelectorIs(sym, labels[0].e), Some(n), First(rest))),
                  Cell(n, NJump(Some(labels[0].id)))];
      assert labels[0] in labels;
      PlacedAppend(g.C, f.pc, two, rest);
      PlacedCell(g.C, f.pc, two, 0);
      PlacedCell(g.C, f.pc, two, 1);
      PlacedCell(g.C, f.pc + 2, rest, 0);
      if IsCaseFor(g.sem, labels[0], v) {
        m := 2;
        assert FStep(g, f) == At(f.pc + 1, f.st, f.sel);
        assert FSteps(g, f, 2) == FStep(g, FStep(g, f));
      } else {
        m := ChainRuns(g, labels[1..], sym, dflt, n + 2, v, At(f.pc + 2, f.st, f.sel));
        m := m + 1;
        assert FStep(g, f) == At(f.pc + 2, f.st, f.sel);
      }
    }
  }

  lemma SwitchAgrees(g: Prog, e: Expr, b: Stmt, labels: seq<CaseLabel>, k: Kont, n: Id, x: Ctx, w: Wit, pc: nat)
    requires Runs(g, Switch(e, b, labels), k, n, x, w, pc)
    ensures LabelsAgree(g.sem, labels, OwnLabels(b))
    ensures if ContainsLabel(b) then (forall l :: l in labels ==> l.id in Kept(g.o, b)) else labels == []
  {
    hide MatchK, Lower, LabelsAgree;
  }

  /** The context and the position of a lowered switch body. */
  function BodyCtx(n: Id, x: Ctx): Ctx {
    Ctx(Some(n + 2), x.cp, x.rp)
  }

  function BodyPos(s: Stmt, n: Id, pc: nat): nat
    requires s.Switch?
  {
    pc + 1 + |SwitchChain(s, n).cells|
  }

  /** Every label of a switch is placed. */
  lemma SwitchLabelsPlaced(g: Prog, e: Expr, b: Stmt, labels: seq<CaseLabel>, k: Kont, n: Id, x: Ctx, w: Wit, pc: nat)
    requires Unique(g.C) && ContainsLabel(b) && Runs(g, Switch(e, b, labels), k, n, x, w, pc)
    ensures forall l :: l in labels ==> Find(g.C, l.id) < |g.C|
  {
    var s := Switch(e, b, labels);
    hide Runs, MatchK, Unique, Find, LabelsAgree, SwitchChain;
    SwitchAgrees(g, e, b, labels, k, n, x, w, pc);
    EnterSwitch(g, s, k, n, x, w, pc);
    forall l | l in labels ensures Find(g.C, l.id) < |g.C| {
      var _, _, _, _ :=
        LabelLands(g, b, l.id, KSwitch(k), SwitchChain(s, n).n, BodyCtx(n, x), Frame(pc, n, x, w), BodyPos(s, n, pc));
    }
  }

  /** The selector is computed once, and the compare chain jumps to the label it selects, or to the break point. */
  lemma SwitchRuns(g: Prog, e: Expr, b: Stmt, labels: seq<CaseLabel>, k: Kont, n: Id, x: Ctx, w: Wit, f: Flat)
    returns (m: nat)
    requires Unique(g.C) && f.At? && ContainsLabel(b) && Runs(g, Switch(e, b, labels), k, n, x, w, f.pc)
    ensures m > 0
    ensures match g.sem.eval(e, f.st)
            case Fault => FSteps(g, f, m) == Halt(Faulted)
            case Value(v, st') =>
              var target := match Select(g.sem, OwnLabels(b), v) case Some(id) => id case None => n + 2;
              FSteps(g, f, m) == At(Find(g.C, target), st', f.sel[n := ULong(v)])
  {
    var s := Switch(e, b, labels);
    hide Runs, MatchK, Find, Lower, Unique, Count, Placed, Chain;
    SwitchAgrees(g, e, b, labels, k, n, x, w, f.pc);
    SwitchLabelsPlaced(g, e, b, labels, k, n, x, w, f.pc);
    RunsResume(g, s, k, n, x, w, f.pc);
    PlacedSwitch(g.o, g.C, f.pc, s, n, x);
    m := 1;
    assert FSteps(g, f, 1) == FStep(g, f);
    match g.sem.eval(e, f.st)
    case Fault =>
    case Value(v, st') =>
      SelectAnyOrder(g.sem, labels, OwnLabels(b), v);
      DefaultTargetMeans(g.sem, labels, n + 2);
      SelectDefaultMeans(labels);
      var f1 := At(f.pc + 1, st', f.sel[n := ULong(v)]);
      assert FStep(g, f) == f1;
      var a := ChainRuns(g, labels, n, DefaultTarget(labels, n + 2), n + 3, v, f1);
      m := 1 + a;
  }

  lemma SimSwitch(g: Prog, e: Expr, b: Stmt, labels: seq<CaseLabel>, k: Kont, n: Id, x: Ctx, w: Wit, f: Flat)
    returns (m: nat, w': StateWit)
    requires Unique(g.C) && f.At? && Runs(g, Switch(e, b, labels), k, n, x, w, f.pc)
    ensures Matched(g, RunStep(g.sem, g.fn, Switch(e, b, labels), k, f.st), f, m, w',
                    Size(Switch(e, b, labels)) + SizeK(k))
  {
    var s := Switch(e, b, labels);
    hide Runs, MatchK, Find, Lower, Unique, Count, LabelsAgree, Select, SwitchChain;
    if ContainsLabel(b) {
      m, w' := SimLabelledSwitch(g, e, b, labels, k, n, x, w, f);
    } else {
      m, w' := SimEmptySwitch(g, e, b, labels, k, n, x, w, f);
    }
  }

  lemma NoLabels(sem: Sem, labels: seq<CaseLabel>, own: seq<CaseLabel>)
    requires LabelsAgree(sem, labels, own)
    ensures own != [] ==> labels != []
  {
    if own != [] { assert own[0] in own; }
  }

  /** A switch body without any label is skipped, and is not lowered. */
  lemma SimEmptySwitch(g: Prog, e: Expr, b: Stmt, labels: seq<CaseLabel>, k: Kont, n: Id, x: Ctx, w: Wit, f: Flat)
    returns (m: nat, w': StateWit)
    requires Unique(g.C) && f.At? && !ContainsLabel(b) && Runs(g, Switch(e, b, labels), k, n, x, w, f.pc)
    ensures Matched(g, RunStep(g.sem, g.fn, Switch(e, b, labels), k, f.st), f, m, w',
                    Size(Switch(e, b, labels)) + SizeK(k))
  {
    var s := Switch(e, b, labels);
    var code := [Cell(n + 1, NExpr(SetSelector(n, e)))];
    assert Lower(g.o, s, n, x).cells == code;
    hide Runs, MatchK, Find, Lower, Unique, Count, LabelsAgree, ContainsLabel;
    SwitchAgrees(g, e, b, labels, k, n, x, w, f.pc);
    RunsResume(g, s, k, n, x, w, f.pc);
    PlacedCell(g.C, f.pc, code, 0);
    NoLabels(g.sem, labels, OwnLabels(b));
    m, w' := 1, StateWit(n, x, w);
    assert FSteps(g, f, 1) == FStep(g, f);
  }

  lemma SimLabelledSwitch(g: Prog, e: Expr, b: Stmt, labels: seq<CaseLabel>, k: Kont, n: Id, x: Ctx, w: Wit, f: Flat)
    returns (m: nat, w': StateWit)
    requires Unique(g.C) && f.At? && ContainsLabel(b) && Runs(g, Switch(e, b, labels), k, n, x, w, f.pc)
    ensures Matched(g, RunStep(g.sem, g.fn, Switch(e, b, labels), k, f.st), f, m, w',
                    Size(Switch(e, b, labels)) + SizeK(k))
  {
    var s := Switch(e, b, labels);
    hide Runs, MatchK, Find, Lower, Unique, Count, LabelsAgree, SwitchChain, ContainsLabel, SilentTo;
    m := SwitchRuns(g, e, b, labels, k, n, x, w, f);
    w' := StateWit(n, x, w);
    match g.sem.eval(e, f.st)
    case Fault =>
    case Value(v, st') =>
      var l := Select(g.sem, OwnLabels(b), v);
      if l.Some? {
        SwitchAgrees(g, e, b, labels, k, n, x, w, f.pc);
        SelectedIn(g.sem, labels, OwnLabels(b), v);
        EnterSwitch(g, s, k, n, x, w, f.pc);
        var n', x', v', pc' := LabelLands(g, b, l.value, KSwitch(k), SwitchChain(s, n).n, BodyCtx(n, x),
                                          Frame(f.pc, n, x, w), BodyPos(s, n, f.pc));
        hide Select;
        w' := StateWit(n', x', v');
      } else {
        RunsResume(g, s, k, n, x, w, f.pc);
        PlacedSwitch(g.o, g.C, f.pc, s, n, x);
        hide Select, Placed;
        var j := Find(g.C, n + 2);
        PesudoIsSilent(g.C, j);
        HopFirst(g, k, w, j, j + 1, x);
        w' := StateWit(n, x, Hop(j + 1, w));
      }
  }

  lemma SelectedIn(sem: Sem, labels: seq<CaseLabel>, own: seq<CaseLabel>, v: int)
    requires LabelsAgree(sem, labels, own) && Select(sem, own, v).Some?
    ensures exists l :: l in labels && l.id == Select(sem, own, v).value
  {
    SelectCaseMeans(sem, own, v);
    SelectDefaultMeans(own);
    var id := Select(sem, own, v).value;
    var l :| l in own && l.id == id;
    assert l in labels;
  }

  // ----- Resuming a continuation -----

  /** One structured step from a frame at its own place in the list. */
  lemma SimFrame(g: Prog, k: Kont, w: Wit, f: Flat, x: Ctx) returns (m: nat, w': StateWit)
    requires Unique(g.C) && OraclesSound(g.sem, g.o) && f.At? && MatchFrame(g, k, w, f.pc, x)
    ensures Matched(g, NextStep(g.sem, k, f.st), f, m, w', SizeK(k))
  {
    hide MatchK, Lower, LowerForTest, OraclesSound, Unique, Count, Find, SilentTo;
    match k
    case KStop =>
      m, w' := 1, StateWit(0, x, w);
      assert FSteps(g, f, 1) == FStep(g, f);
    case KSeq(ss, k') =>
      m := 0;
      if ss == [] {
        w' := StateWit(w.n, x, w.tail);
      } else {
        EnterSeq(g, ss, k', w.n, x, w.tail, f.pc);
        w' := StateWit(w.n, x, Frame(f.pc, Lower(g.o, ss[0], w.n, x).n, x, w.tail));
      }
    case KWhile(c, b, k') => m, w' := SimWhileFrame(g, c, b, k', w, f, x);
    case KDo(b, c, k') =>
      hide MatchFrame, MatchS, NextStep;
      if DropsBody(g.o, c, b) { m, w' := NextDoOnce(g, b, c, k', w, f, x); }
      else if FoldsLoop(g.o, c, b) { m, w' := NextDoEndless(g, b, c, k', w, f, x); }
      else { m, w' := NextDoTested(g, b, c, k', w, f, x); }
    case KFor(c, inc, b, k') =>
      hide MatchFrame, MatchS, NextStep;
      m, w' := NextFor(g, c, inc, b, k', w, f, x);
    case KSwitch(k') =>
      m, w' := 1, StateWit(w.n, w.x, w.tail);
      assert FSteps(g, f, 1) == FStep(g, f);
  }

  lemma SimWhileFrame(g: Prog, c: Expr, b: Stmt, k: Kont, w: Wit, f: Flat, x: Ctx) returns (m: nat, w': StateWit)
    requires Unique(g.C) && OraclesSound(g.sem, g.o) && f.At? && MatchFrame(g, KWhile(c, b, k), w, f.pc, x)
    ensures m > 0 && MatchS(g, NextStep(g.sem, KWhile(c, b, k), f.st), FSteps(g, f, m), w')
  {
    hide MatchK, Lower, OkIn, OraclesSound, Unique, Placed, MatchS, LoopTest;
    m, w' := WhileTest(g, c, b, k, w.n, w.x, w.tail, f);
  }

  lemma SimNext(g: Prog, k: Kont, w: StateWit, f: Flat) returns (m: nat, w': StateWit)
    requires Unique(g.C) && OraclesSound(g.sem, g.o) && f.At? && MatchK(g, k, w.w, f.pc, w.x)
    ensures Matched(g, NextStep(g.sem, k, f.st), f, m, w', SizeK(k))
  {
    hide MatchFrame, OraclesSound, Unique, MatchS, NextStep;
    var a, v := TakeHops(g, k, w.w, f, w.x);
    var b, w1 := SimFrame(g, k, v, FSteps(g, f, a), w.x);
    FStepsAdd(g, f, a, b);
    m, w' := a + b, w1;
  }

  // ----- The simulation -----

  lemma SimRun(g: Prog, s: Stmt, k: Kont, f: Flat, w: StateWit) returns (m: nat, w': StateWit)
    requires GoodProg(g) && f.At? && Runs(g, s, k, w.n, w.x, w.w, f.pc)
    requires s.Goto? ==> s.target in KeptSeq(g.o, g.fn)
    ensures Matched(g, RunStep(g.sem, g.fn, s, k, f.st), f, m, w', Size(s) + SizeK(k))
  {
    assert Unique(g.C) && OraclesSound(g.sem, g.o);
    hide GoodProg, Runs, Matched, RunStep, Size, SizeK, Unique, OraclesSound, FoldsIf;
    match s
    case Dec(_) => m, w' := SimDec(g, s, k, f, w);
    case Exp(_, _) => m, w' := SimExp(g, s, k, f, w);
    case Label(_, _) => m, w' := SimLabel(g, s, k, f, w);
    case Case(_, _, _) => m, w' := SimLabel(g, s, k, f, w);
    case Default(_, _) => m, w' := SimLabel(g, s, k, f, w);
    case Block(_) => m, w' := SimBlock(g, s, k, f, w);
    case If(_, c, t, e) =>
      if FoldsIf(g.o, c, t, e) { m, w' := SimFoldedIf(g, s, k, f, w); } else { m, w' := SimIf(g, s, k, f, w); }
    case Goto(_, _) => m, w' := SimGoto(g, s, k, f, w);
    case Return(_, _) => m, w' := SimReturn(g, s, k, f, w);
    case While(c, b) => m, w' := SimWhile(g, c, b, k, w.n, w.x, w.w, f);
    case DoWhile(b, c) => m, w' := SimDo(g, b, c, k, w.n, w.x, w.w, f);
    case For(i, c, inc, b) => m, w' := SimFor(g, i, c, inc, b, k, w.n, w.x, w.w, f);
    case Switch(e, b, ls) => m, w' := SimSwitch(g, e, b, ls, k, w.n, w.x, w.w, f);
    case Break(_) => m, w' := SimJump(g, s, k, f, w);
    case Continue(_) => m, w' := SimJump(g, s, k, f, w);
  }

  /** About to go to a label in dropped code. */
  predicate Lost(g: Prog, s: State) {
    s.Run? && s.s.Goto? && s.s.target !in KeptSeq(g.o, g.fn)
  }

  /** One structured step, matched. */
  lemma SimStep(g: Prog, s: State, f: Flat, w: StateWit) returns (m: nat, w': StateWit)
    requires GoodProg(g) && MatchS(g, s, f, w) && !s.Done? && !Lost(g, s)
    ensures Matched(g, Step(g.sem, g.fn, s), f, m, w', Measure(s))
  {
    assert Unique(g.C) && OraclesSound(g.sem, g.o);
    hide Runs, Tests, MatchK, GoodProg, Unique, OraclesSound, Matched, RunStep, NextStep, LoopTest, Size, SizeK;
    match s
    case Run(stmt, k, st) => m, w' := SimRun(g, stmt, k, f, w);
    case Test(c, inc, b, k, st) => m, w' := SimTest(g, c, inc, b, k, w.n, w.x, w.w, f);
    case Next(k, st) => m, w' := SimNext(g, k, w, f);
  }

  /** If the structured run ends, so does the machine, with the same outcome; but for lost gotos. */
  lemma {:induction false} EndsForward(g: Prog, s: State, f: Flat, w: StateWit, n: nat, out: Outcome) returns (m: nat)
    requires GoodProg(g) && MatchS(g, s, f, w)
    requires Steps(g.sem, g.fn, s, n) == Done(out)
    requires forall i: nat :: i < n ==> !Lost(g, Steps(g.sem, g.fn, s, i))
    ensures FSteps(g, f, m) == Halt(out)
    decreases n
  {
    hide GoodProg, Runs, Tests, MatchK, Step, Lost;
    if s.Done? {
      DoneStays(g, s, n);
      m := 0;
    } else {
      assert !Lost(g, Steps(g.sem, g.fn, s, 0));
      forall i: nat | i < n - 1 ensures !Lost(g, Steps(g.sem, g.fn, Step(g.sem, g.fn, s), i)) {
        assert !Lost(g, Steps(g.sem, g.fn, s, i + 1));
      }
      var a, w' := SimStep(g, s, f, w);
      var b := EndsForward(g, Step(g.sem, g.fn, s), FSteps(g, f, a), w', n - 1, out);
      FStepsAdd(g, f, a, b);
      m := a + b;
    }
  }

  lemma {:induction false} DoneStays(g: Prog, s: State, n: nat)
    requires s.Done?
    ensures Steps(g.sem, g.fn, s, n) == s
    decreases n
  {
    if n > 0 { DoneStays(g, s, n - 1); }
  }

  lemma {:induction false} HaltStays(g: Prog, f: Flat, n: nat)
    requires f.Halt?
    ensures FSteps(g, f, n) == f
    decreases n
  {
    if n > 0 { HaltStays(g, f, n - 1); }
  }

  /** Where all labels that gotos may name are kept, no goto is lost. */
  lemma {:induction false} NeverLost(g: Prog, s: State, f: Flat, w: StateWit, n: nat)
    requires GoodProg(g) && MatchS(g, s, f, w) && g.may <= KeptSeq(g.o, g.fn)
    ensures !Lost(g, Steps(g.sem, g.fn, s, n))
    decreases n
  {
    assert !Lost(g, s);
    hide GoodProg, Runs, Tests, MatchK, Step, Lost;
    if s.Done? {
      DoneStays(g, s, n);
    } else if n > 0 {
      var a, w' := SimStep(g, s, f, w);
      NeverLost(g, Step(g.sem, g.fn, s), FSteps(g, f, a), w', n - 1);
    }
  }

  /** Where the structured run comes to a lost goto, the machine comes to the same goto. */
  lemma {:induction false} ReachesLost(g: Prog, s: State, f: Flat, w: StateWit, n: nat)
    returns (m: nat, w': StateWit)
    requires GoodProg(g) && MatchS(g, s, f, w) && Lost(g, Steps(g.sem, g.fn, s, n))
    requires forall i: nat :: i < n ==> !Lost(g, Steps(g.sem, g.fn, s, i))
    ensures MatchS(g, Steps(g.sem, g.fn, s, n), FSteps(g, f, m), w')
    decreases n
  {
    hide GoodProg, Runs, Tests, MatchK, Step;
    if n == 0 {
      m, w' := 0, w;
    } else if s.Done? {
      DoneStays(g, s, n);
      assert false;
    } else {
      assert !Lost(g, Steps(g.sem, g.fn, s, 0));
      forall i: nat | i < n - 1 ensures !Lost(g, Steps(g.sem, g.fn, Step(g.sem, g.fn, s), i)) {
        assert !Lost(g, Steps(g.sem, g.fn, s, i + 1));
      }
      var a, w1 := SimStep(g, s, f, w);
      var b, w2 := ReachesLost(g, Step(g.sem, g.fn, s), FSteps(g, f, a), w1, n - 1);
      FStepsAdd(g, f, a, b);
      m, w' := a + b, w2;
    }
  }

  /** If the machine ends, so does the structured run, with the same outcome; but for lost gotos. */
  lemma {:induction false} EndsBackward(g: Prog, s: State, f: Flat, w: StateWit, m: nat, out: Outcome) returns (n: nat)
    requires GoodProg(g) && MatchS(g, s, f, w)
    requires FSteps(g, f, m) == Halt(out)
    requires forall i: nat :: !Lost(g, Steps(g.sem, g.fn, s, i))
    ensures Steps(g.sem, g.fn, s, n) == Done(out)
    decreases m, Measure(s)
  {
    hide GoodProg, Runs, Tests, MatchK, Step, Lost;
    if s.Done? {
      HaltStays(g, f, m);
      n := 0;
    } else {
      assert !Lost(g, Steps(g.sem, g.fn, s, 0));
      forall i: nat ensures !Lost(g, Steps(g.sem, g.fn, Step(g.sem, g.fn, s), i)) {
        assert !Lost(g, Steps(g.sem, g.fn, s, i + 1));
      }
      var a, w' := SimStep(g, s, f, w);
      var s', f' := Step(g.sem, g.fn, s), FSteps(g, f, a);
      if a <= m {
        FStepsAdd(g, f, a, m - a);
        n := EndsBackward(g, s', f', w', m - a, out);
      } else {
        FStepsAdd(g, f, m, a - m);
        HaltStays(g, Halt(out), a - m);
        n := EndsBackward(g, s', f', w', 0, out);
      }
      n := n + 1;
    }
  }
}
