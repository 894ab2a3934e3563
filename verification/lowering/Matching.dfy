/**
  The correspondence between a state of the structured run and a position of
  the flat machine. A witness records, for each frame of the continuation, where
  the code it came from lies in the list.
 */
module Matching {
  import opened Wrappers
  import opened Syntax
  import opened Semantics
  import opened Lowering
  import opened WellFormed
  import opened FlatLayout

  /**
    A program under simulation: its meaning, its tree, its finished list with return point `exit`, and the
    labels its gotos may name, which need not all be kept.
   */
  datatype Prog = Prog(sem: Sem, o: Oracles, fn: seq<Stmt>, C: seq<Cell>, exit: Id, may: set<Id>)

  ghost predicate GoodProg(g: Prog) {
    && OraclesSound(g.sem, g.o)
    && Unique(g.C)
    && Count(g.C, g.exit) == 0
    && g.C == LowerFunction(g.o, g.fn, g.exit).cells
    && StaticSeq(g.sem, g.fn, false, false)
    && JumpsKeptSeq(g.o, g.may, g.fn)
  }

  ghost predicate OkIn(g: Prog, s: Stmt, x: Ctx) {
    x.rp == g.exit && Static(g.sem, s, x.bp.Some?, x.cp.Some?) && JumpsKept(g.o, g.may, s)
  }

  ghost predicate OkSeqIn(g: Prog, ss: seq<Stmt>, x: Ctx) {
    x.rp == g.exit && StaticSeq(g.sem, ss, x.bp.Some?, x.cp.Some?) && JumpsKeptSeq(g.o, g.may, ss)
  }

  /** `cells` lie in the list from position `i` on. */
  predicate Placed(C: seq<Cell>, i: nat, cells: seq<Cell>) {
    i + |cells| <= |C| && C[i..i + |cells|] == cells
  }

  lemma PlacedAppend(C: seq<Cell>, i: nat, a: seq<Cell>, b: seq<Cell>)
    ensures Placed(C, i, a + b) <==> Placed(C, i, a) && Placed(C, i + |a|, b)
  {
    if Placed(C, i, a + b) {
      assert C[i..i + |a|] == C[i..i + |a + b|][..|a|] == a;
      assert C[i + |a|..i + |a| + |b|] == C[i..i + |a + b|][|a|..] == b;
    }
    if Placed(C, i, a) && Placed(C, i + |a|, b) {
      assert C[i..i + |a + b|] == C[i..i + |a|] + C[i + |a|..i + |a| + |b|];
    }
  }

  lemma Placed3(C: seq<Cell>, i: nat, a: seq<Cell>, b: seq<Cell>, c: seq<Cell>)
    requires Placed(C, i, a + b + c)
    ensures Placed(C, i, a) && Placed(C, i + |a|, b) && Placed(C, i + |a| + |b|, c)
  {
    hide Placed;
    PlacedAppend(C, i, a + b, c);
    PlacedAppend(C, i, a, b);
  }

  lemma Placed5(C: seq<Cell>, i: nat, a: seq<Cell>, b: seq<Cell>, c: seq<Cell>, d: seq<Cell>, e: seq<Cell>)
    requires Placed(C, i, a + b + c + d + e)
    ensures Placed(C, i, a) && Placed(C, i + |a|, b) && Placed(C, i + |a| + |b|, c)
    ensures Placed(C, i + |a| + |b| + |c|, d) && Placed(C, i + |a| + |b| + |c| + |d|, e)
  {
    hide Placed;
    Placed3(C, i, a + b + c, d, e);
    Placed3(C, i, a, b, c);
  }

  /** A placed cell is where the machine finds it. */
  lemma PlacedCell(C: seq<Cell>, i: nat, cells: seq<Cell>, j: nat)
    requires Unique(C) && Placed(C, i, cells) && j < |cells|
    ensures i + j < |C| && C[i + j] == cells[j] && Find(C, cells[j].id) == i + j
  {
    assert C[i + j] == C[i..i + |cells|][j];
    FindPlaced(C, i + j);
  }

  /** The break point of a while loop lowered from `n` on, and the loop's body. */
  function WhileBp(o: Oracles, c: Expr, b: Stmt, n: Id): Id {
    if FoldsLoop(o, c, b) then OptExpr(o, c, n + 1).n else n + 2
  }

  function WhileCtx(o: Oracles, c: Expr, b: Stmt, n: Id, rp: Id): Ctx {
    Ctx(Some(WhileBp(o, c, b, n)), Some(n), rp)
  }

  function WhileBody(o: Oracles, c: Expr, b: Stmt, n: Id, rp: Id): Code {
    Lower(o, b, WhileBp(o, c, b, n) + 1, WhileCtx(o, c, b, n, rp))
  }

  function DoCtx(n: Id, rp: Id): Ctx {
    Ctx(Some(n + 1), Some(n), rp)
  }

  function DoBody(o: Oracles, b: Stmt, n: Id, rp: Id): Code {
    Lower(o, b, n + 2, DoCtx(n, rp))
  }

  /** A do loop with a false constant has no code before its body. */
  function DoHead(o: Oracles, c: Expr, b: Stmt): nat {
    if FoldsLoop(o, c, b) && !o.isTrue(c) then 0 else 1
  }

  function ForBp(o: Oracles, c: Expr, b: Stmt, n: Id): Id {
    if FoldsLoop(o, c, b) then OptExpr(o, c, n + 2).n else n + 3
  }

  function ForCtx(o: Oracles, c: Expr, b: Stmt, n: Id, rp: Id): Ctx {
    Ctx(Some(ForBp(o, c, b, n)), Some(n + 1), rp)
  }

  function ForBody(o: Oracles, c: Expr, b: Stmt, n: Id, rp: Id): Code {
    Lower(o, b, ForBp(o, c, b, n) + 1, ForCtx(o, c, b, n, rp))
  }

  /** The code before the body of a for loop that is not dropped. */
  function ForHead(o: Oracles, c: Expr, b: Stmt, n: Id, rp: Id): seq<Cell> {
    if FoldsLoop(o, c, b) then [Cell(n, NPesudo)] + OptExpr(o, c, n + 2).cells
    else TestedHead(n, n + 2, c, ForBody(o, c, b, n, rp).cells, n + 3)
  }

  function WhileHead(o: Oracles, c: Expr, b: Stmt, n: Id, rp: Id): seq<Cell> {
    if FoldsLoop(o, c, b) then [Cell(n, NPesudo)] + OptExpr(o, c, n + 1).cells
    else TestedHead(n, n + 1, c, WhileBody(o, c, b, n, rp).cells, n + 2)
  }

  datatype Wit =
    | End
    | Frame(start: nat, n: Id, x: Ctx, tail: Wit)   // code lowered from n on in context x, at start
    | Hop(pc: nat, tail: Wit)                       // first a silent step to pc

  /** Where a jump or a pseudo node leads. */
  function SilentTo(C: seq<Cell>, pc: nat): Option<nat> {
    if pc >= |C| then None
    else
      match C[pc].node
      case NPesudo => Some(pc + 1)
      case NJump(t) => if t.Some? && Find(C, t.value) < |C| then Some(Find(C, t.value)) else None
      case _ => None
  }

  /** The machine at `pc` is about to resume `k`, whose statements were lowered in context `x`. */
  ghost predicate MatchK(g: Prog, k: Kont, w: Wit, pc: nat, x: Ctx)
    decreases k, w, 1
  {
    if w.Hop? then SilentTo(g.C, pc) == Some(w.pc) && MatchK(g, k, w.tail, w.pc, x)
    else MatchFrame(g, k, w, pc, x)
  }

  ghost predicate MatchFrame(g: Prog, k: Kont, w: Wit, pc: nat, x: Ctx)
    decreases k, w, 0
  {
    !w.Hop? &&
    match k
    case KStop => w.End? && pc == |g.C| && x == Ctx(None, None, g.exit)
    case KSeq(ss, k') =>
      && w.Frame?
      && OkSeqIn(g, ss, x)
      && Placed(g.C, pc, LowerSeq(g.o, ss, w.n, x).cells)
      && MatchK(g, k', w.tail, pc + |LowerSeq(g.o, ss, w.n, x).cells|, x)
    case KWhile(c, b, k') =>
      && w.Frame?
      && !DropsBody(g.o, c, b)
      && OkIn(g, While(c, b), w.x)
      && Placed(g.C, pc, Lower(g.o, While(c, b), w.n, w.x).cells)
      && x == WhileCtx(g.o, c, b, w.n, g.exit)
      && MatchK(g, k', w.tail, pc + |Lower(g.o, While(c, b), w.n, w.x).cells|, w.x)
    case KDo(b, c, k') =>
      && w.Frame?
      && OkIn(g, DoWhile(b, c), w.x)
      && Placed(g.C, w.start, Lower(g.o, DoWhile(b, c), w.n, w.x).cells)
      && pc == w.start + DoHead(g.o, c, b) + |DoBody(g.o, b, w.n, g.exit).cells|
      && x == DoCtx(w.n, g.exit)
      && MatchK(g, k', w.tail, w.start + |Lower(g.o, DoWhile(b, c), w.n, w.x).cells|, w.x)
    case KFor(c, inc, b, k') =>
      && w.Frame?
      && !DropsBody(g.o, c, b)
      && w.x.rp == g.exit
      && OkIn(g, b, x)
      && Placed(g.C, w.start, LowerForTest(g.o, c, inc, b, w.n, w.x).cells)
      && pc == w.start + |ForHead(g.o, c, b, w.n, g.exit)| + |ForBody(g.o, c, b, w.n, g.exit).cells|
      && x == ForCtx(g.o, c, b, w.n, g.exit)
      && MatchK(g, k', w.tail, w.start + |LowerForTest(g.o, c, inc, b, w.n, w.x).cells|, w.x)
    case KSwitch(k') =>
      && w.Frame?
      && pc < |g.C|
      && x == Ctx(Some(g.C[pc].id), w.x.cp, g.exit)
      && g.C[pc].node == NPesudo
      && w.x.rp == g.exit
      && MatchK(g, k', w.tail, pc + 1, w.x)
  }

  /** Running `s` and then `k` corresponds to the machine at `pc`. */
  ghost predicate Runs(g: Prog, s: Stmt, k: Kont, n: Id, x: Ctx, w: Wit, pc: nat) {
    && OkIn(g, s, x)
    && Placed(g.C, pc, Lower(g.o, s, n, x).cells)
    && MatchK(g, k, w, pc + |Lower(g.o, s, n, x).cells|, x)
  }

  ghost predicate RunsSeq(g: Prog, ss: seq<Stmt>, k: Kont, n: Id, x: Ctx, w: Wit, pc: nat) {
    && OkSeqIn(g, ss, x)
    && Placed(g.C, pc, LowerSeq(g.o, ss, n, x).cells)
    && MatchK(g, k, w, pc + |LowerSeq(g.o, ss, n, x).cells|, x)
  }

  /** The same for a for loop about to be tested. */
  ghost predicate Tests(g: Prog, c: Expr, inc: Expr, b: Stmt, k: Kont, n: Id, x: Ctx, w: Wit, pc: nat) {
    && x.rp == g.exit
    && Static(g.sem, b, true, true)
    && (!DropsBody(g.o, c, b) ==> JumpsKept(g.o, g.may, b))
    && Placed(g.C, pc, LowerForTest(g.o, c, inc, b, n, x).cells)
    && MatchK(g, k, w, pc + |LowerForTest(g.o, c, inc, b, n, x).cells|, x)
  }

  /** Identity numbering, context and frame positions for a whole state. */
  datatype StateWit = StateWit(n: Id, x: Ctx, w: Wit)

  ghost predicate MatchS(g: Prog, s: State, f: Flat, w: StateWit) {
    match s
    case Run(stmt, k, st) => f.At? && f.st == st && Runs(g, stmt, k, w.n, w.x, w.w, f.pc)
    case Test(c, inc, b, k, st) => f.At? && f.st == st && Tests(g, c, inc, b, k, w.n, w.x, w.w, f.pc)
    case Next(k, st) => f.At? && f.st == st && MatchK(g, k, w.w, f.pc, w.x)
    case Done(out) => f == Halt(out)
  }

  // ----- Taking machine steps -----

  function FStep(g: Prog, f: Flat): Flat {
    FlatStep(g.sem, g.C, g.exit, f)
  }

  function FSteps(g: Prog, f: Flat, n: nat): Flat {
    FlatSteps(g.sem, g.C, g.exit, f, n)
  }

  lemma {:induction false} FStepsAdd(g: Prog, f: Flat, a: nat, b: nat)
    ensures FSteps(g, FSteps(g, f, a), b) == FSteps(g, f, a + b)
    decreases a
  {
    if a > 0 { FStepsAdd(g, FStep(g, f), a - 1, b); }
  }

  /** Silent steps change neither store nor selectors. */
  lemma {:induction false} TakeHops(g: Prog, k: Kont, w: Wit, f: Flat, x: Ctx) returns (m: nat, w': Wit)
    requires f.At? && MatchK(g, k, w, f.pc, x)
    ensures !w'.Hop?
    ensures var f' := FSteps(g, f, m); f'.At? && f'.st == f.st && f'.sel == f.sel && MatchK(g, k, w', f'.pc, x)
    decreases w
  {
    m, w' := 0, w;
    if w.Hop? {
      m, w' := TakeHops(g, k, w.tail, At(w.pc, f.st, f.sel), x);
      m := m + 1;
    }
  }

  // ----- Taking the shapes apart -----

  lemma PlacedClose(C: seq<Cell>, i: nat, head: seq<Cell>, last: seq<Cell>, top: Id, bp: Id, n: Id)
    requires Unique(C) && Placed(C, i, CloseLoop(head, last, top, bp, n).cells)
    ensures Placed(C, i, head) && Placed(C, i + |head|, last)
    ensures var j := i + |head| + |last|;
            j + 1 < |C| && C[j] == Cell(n, NJump(Some(top))) && C[j + 1] == Cell(bp, NPesudo)
            && Find(C, bp) == j + 1
  {
    var tail := [Cell(n, NJump(Some(top))), Cell(bp, NPesudo)];
    PlacedAppend(C, i, head + last, tail);
    PlacedAppend(C, i, head, last);
    PlacedCell(C, i + |head + last|, tail, 0);
    PlacedCell(C, i + |head + last|, tail, 1);
  }

  lemma WhileShape(o: Oracles, c: Expr, b: Stmt, n: Id, x: Ctx)
    requires !DropsBody(o, c, b)
    ensures Lower(o, While(c, b), n, x) == CloseLoop(WhileHead(o, c, b, n, x.rp), WhileBody(o, c, b, n, x.rp).cells,
                                                    n, WhileBp(o, c, b, n), WhileBody(o, c, b, n, x.rp).n)
  {
  }

  lemma ForShape(o: Oracles, c: Expr, inc: Expr, b: Stmt, n: Id, x: Ctx)
    requires !DropsBody(o, c, b)
    ensures LowerForTest(o, c, inc, b, n, x) == FinishFor(o, ForHead(o, c, b, n, x.rp), ForBody(o, c, b, n, x.rp), inc,
                                                          n, n + 1, ForBp(o, c, b, n))
  {
  }

  /** A while loop's body, and the jump back to its continue point. */
  lemma PlacedWhile(o: Oracles, C: seq<Cell>, i: nat, c: Expr, b: Stmt, n: Id, x: Ctx)
    requires Unique(C) && !DropsBody(o, c, b)
    requires Placed(C, i, Lower(o, While(c, b), n, x).cells)
    ensures var h, B := WhileHead(o, c, b, n, x.rp), WhileBody(o, c, b, n, x.rp).cells;
            var e := i + |h| + |B|;
            && Placed(C, i, h) && Placed(C, i + |h|, B)
            && i + |Lower(o, While(c, b), n, x).cells| == e + 2
            && SilentTo(C, e) == Some(i)
            && SilentTo(C, e + 1) == Some(e + 2)
            && e + 1 < |C| && Find(C, WhileBp(o, c, b, n)) == e + 1
            && Find(C, n) == i
  {
    WhileShape(o, c, b, n, x);
    var h, B := WhileHead(o, c, b, n, x.rp), WhileBody(o, c, b, n, x.rp);
    PlacedLoop(C, i, h, B.cells, n, WhileBp(o, c, b, n), B.n);
  }

  /** Closing a loop leaves two silent cells: the jump to its first cell, and the break point. */
  lemma PlacedLoop(C: seq<Cell>, i: nat, h: seq<Cell>, last: seq<Cell>, top: Id, bp: Id, n: Id)
    requires Unique(C) && Placed(C, i, CloseLoop(h, last, top, bp, n).cells)
    requires h != [] && h[0].id == top
    ensures Placed(C, i, h) && Placed(C, i + |h|, last)
    ensures var e := i + |h| + |last|;
            && SilentTo(C, e) == Some(i)
            && SilentTo(C, e + 1) == Some(e + 2)
            && e + 1 < |C| && Find(C, bp) == e + 1
    ensures Find(C, top) == i
  {
    PlacedClose(C, i, h, last, top, bp, n);
    PlacedCell(C, i, h, 0);
  }

  /** The end of a do loop, from its continue point on. */
  function DoTail(o: Oracles, c: Expr, b: Stmt, n: Id, rp: Id): seq<Cell> {
    var B := DoBody(o, b, n, rp);
    [Cell(n, NPesudo)] +
    if DropsBody(o, c, b) then OptExpr(o, c, B.n).cells + [Cell(n + 1, NPesudo)]
    else if FoldsLoop(o, c, b) then
      var pre := OptExpr(o, c, B.n + 1);
      pre.cells + [Cell(pre.n, NJump(Some(B.n))), Cell(n + 1, NPesudo)]
    else [Cell(B.n + 1, NBranch(Plain(c), Some(B.n), Some(n + 1))), Cell(n + 1, NPesudo)]
  }

  /** The first cell of a do loop that repeats. */
  function DoHeadCells(o: Oracles, c: Expr, b: Stmt, n: Id, rp: Id): seq<Cell> {
    if DropsBody(o, c, b) then [] else [Cell(DoBody(o, b, n, rp).n, NPesudo)]
  }

  lemma DoShape(o: Oracles, c: Expr, b: Stmt, n: Id, x: Ctx)
    ensures Lower(o, DoWhile(b, c), n, x).cells
         == DoHeadCells(o, c, b, n, x.rp) + (DoBody(o, b, n, x.rp).cells + DoTail(o, c, b, n, x.rp))
  {
    var B := DoBody(o, b, n, x.rp);
    assert Lower(o, DoWhile(b, c), n, x) == FinishDo(o, c, FoldsLoop(o, c, b), B, n);
  }

  lemma PlacedDo(o: Oracles, C: seq<Cell>, i: nat, c: Expr, b: Stmt, n: Id, x: Ctx)
    requires Unique(C)
    requires Placed(C, i, Lower(o, DoWhile(b, c), n, x).cells)
    ensures var B := DoBody(o, b, n, x.rp);
            var p := i + DoHead(o, c, b);
            var tail := DoTail(o, c, b, n, x.rp);
            && Placed(C, p, B.cells) && Placed(C, p + |B.cells|, tail)
            && p + |B.cells| + |tail| == i + |Lower(o, DoWhile(b, c), n, x).cells|
            && Find(C, n) == p + |B.cells| < |C|
            && (!DropsBody(o, c, b) ==> i < |C| && C[i] == Cell(B.n, NPesudo) && Find(C, B.n) == i)
  {
    DoShape(o, c, b, n, x);
    var head, B, tail := DoHeadCells(o, c, b, n, x.rp), DoBody(o, b, n, x.rp).cells, DoTail(o, c, b, n, x.rp);
    PlacedAppend(C, i, head, B + tail);
    PlacedAppend(C, i + |head|, B, tail);
    PlacedCell(C, i + |head| + |B|, tail, 0);
    if head != [] { PlacedCell(C, i, head, 0); }
  }

  lemma PlacedFor(o: Oracles, C: seq<Cell>, i: nat, c: Expr, inc: Expr, b: Stmt, n: Id, x: Ctx)
    requires Unique(C) && !DropsBody(o, c, b)
    requires Placed(C, i, LowerForTest(o, c, inc, b, n, x).cells)
    ensures var h, B := ForHead(o, c, b, n, x.rp), ForBody(o, c, b, n, x.rp);
            var q := i + |h| + |B.cells|;
            var post := OptExpr(o, inc, B.n).cells;
            var e := q + 1 + |post|;
            && Placed(C, i, h) && Placed(C, i + |h|, B.cells)
            && q < |C| && C[q] == Cell(n + 1, NPesudo) && Find(C, n + 1) == q
            && Placed(C, q + 1, post)
            && i + |LowerForTest(o, c, inc, b, n, x).cells| == e + 2
            && SilentTo(C, e) == Some(i) && SilentTo(C, e + 1) == Some(e + 2)
            && e + 1 < |C| && Find(C, ForBp(o, c, b, n)) == e + 1
  {
    ForShape(o, c, inc, b, n, x);
    var h, B := ForHead(o, c, b, n, x.rp), ForBody(o, c, b, n, x.rp);
    PlacedFinishFor(o, C, i, h, B, inc, n, n + 1, ForBp(o, c, b, n));
  }

  lemma PlacedFinishFor(o: Oracles, C: seq<Cell>, i: nat, h: seq<Cell>, B: Code, inc: Expr, top: Id, cp: Id, bp: Id)
    requires Unique(C) && Placed(C, i, FinishFor(o, h, B, inc, top, cp, bp).cells)
    requires h != [] && h[0].id == top
    ensures var q := i + |h| + |B.cells|;
            var post := OptExpr(o, inc, B.n).cells;
            var e := q + 1 + |post|;
            && Placed(C, i, h) && Placed(C, i + |h|, B.cells)
            && q < |C| && C[q] == Cell(cp, NPesudo) && Find(C, cp) == q
            && Placed(C, q + 1, post)
            && i + |FinishFor(o, h, B, inc, top, cp, bp).cells| == e + 2
            && SilentTo(C, e) == Some(i) && SilentTo(C, e + 1) == Some(e + 2)
            && e + 1 < |C| && Find(C, bp) == e + 1
  {
    var post := OptExpr(o, inc, B.n);
    var c := [Cell(cp, NPesudo)];
    PlacedLoop(C, i, h + B.cells + c, post.cells, top, bp, post.n);
    PlacedAppend(C, i, h + B.cells, c);
    PlacedAppend(C, i, h, B.cells);
    PlacedCell(C, i + |h + B.cells|, c, 0);
  }
}
