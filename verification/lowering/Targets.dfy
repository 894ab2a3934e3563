/** Where break, continue, goto and case jumps land, in the tree and in the list. */
module Targets {
  import opened Wrappers
  import opened Syntax
  import opened Semantics
  import opened Lowering
  import opened WellFormed
  import opened FlatLayout
  import opened Matching

  /** At `j` lies the break point of context `x`, and it leads silently past the frame of `k`. */
  ghost predicate BreakAt(g: Prog, k: Kont, w: Wit, x: Ctx, j: nat)
    requires !k.KStop? && w.Frame?
  {
    && x.bp.Some? && Find(g.C, x.bp.value) == j < |g.C| && SilentTo(g.C, j) == Some(j + 1)
    && MatchK(g, k.k, w.tail, j + 1, w.x)
  }

  lemma BreakWhile(g: Prog, k: Kont, w: Wit, pc: nat, x: Ctx) returns (j: nat)
    requires Unique(g.C) && MatchFrame(g, k, w, pc, x) && k.KWhile?
    ensures BreakAt(g, k, w, x, j)
  {
    assert w.x.rp == g.exit;
    hide Lower, Find, OkIn;
    PlacedWhile(g.o, g.C, pc, k.cond, k.body, w.n, w.x);
    j := pc + |Lower(g.o, While(k.cond, k.body), w.n, w.x).cells| - 1;
  }

  lemma DoTailEnds(o: Oracles, c: Expr, b: Stmt, n: Id, rp: Id)
    ensures var tail := DoTail(o, c, b, n, rp); |tail| > 0 && tail[|tail| - 1] == Cell(n + 1, NPesudo)
  {
    hide Lower;
  }

  lemma BreakDo(g: Prog, k: Kont, w: Wit, pc: nat, x: Ctx) returns (j: nat)
    requires Unique(g.C) && MatchFrame(g, k, w, pc, x) && k.KDo?
    ensures BreakAt(g, k, w, x, j)
  {
    hide Lower, Find, Count, Static, JumpsKept, DoTail, Unique;
    var tail := DoTail(g.o, k.cond, k.body, w.n, g.exit);
    DoTailEnds(g.o, k.cond, k.body, w.n, g.exit);
    PlacedDo(g.o, g.C, w.start, k.cond, k.body, w.n, w.x);
    PlacedCell(g.C, pc, tail, |tail| - 1);
    j := pc + |tail| - 1;
  }

  lemma BreakFor(g: Prog, k: Kont, w: Wit, pc: nat, x: Ctx) returns (j: nat)
    requires Unique(g.C) && MatchFrame(g, k, w, pc, x) && k.KFor?
    ensures BreakAt(g, k, w, x, j)
  {
    hide LowerForTest, Find, OkIn;
    PlacedFor(g.o, g.C, w.start, k.cond, k.inc, k.body, w.n, w.x);
    j := w.start + |LowerForTest(g.o, k.cond, k.inc, k.body, w.n, w.x).cells| - 1;
  }

  /** A frame's break point leads silently past the frame. */
  lemma BreakFrame(g: Prog, k: Kont, w: Wit, pc: nat, x: Ctx) returns (j: nat)
    requires Unique(g.C) && MatchFrame(g, k, w, pc, x) && !k.KStop? && !k.KSeq?
    ensures w.Frame? && BreakAt(g, k, w, x, j)
  {
    hide Lower, LowerForTest, Find, OkIn, MatchK;
    match k
    case KWhile(_, _, _) => j := BreakWhile(g, k, w, pc, x);
    case KDo(_, _, _) => j := BreakDo(g, k, w, pc, x);
    case KFor(_, _, _, _) => j := BreakFor(g, k, w, pc, x);
    case KSwitch(_) =>
      FindPlaced(g.C, pc);
      j := pc;
  }

  /** A loop frame's continue point is where the loop resumes. */
  lemma ContinueFrame(g: Prog, k: Kont, w: Wit, pc: nat, x: Ctx)
    requires Unique(g.C) && MatchFrame(g, k, w, pc, x) && (k.KWhile? || k.KDo? || k.KFor?)
    ensures x.cp.Some? && Find(g.C, x.cp.value) == pc < |g.C|
  {
    hide Lower, Find;
    match k
    case KWhile(c, b, k') => PlacedWhile(g.o, g.C, pc, c, b, w.n, w.x);
    case KDo(b, c, k') => PlacedDo(g.o, g.C, w.start, c, b, w.n, w.x);
    case KFor(c, inc, b, k') => PlacedFor(g.o, g.C, w.start, c, inc, b, w.n, w.x);
  }

  /** Each break point is where the innermost enclosing loop or switch is left. */
  lemma {:induction false} BreakLands(g: Prog, k: Kont, w: Wit, pc: nat, x: Ctx) returns (j: nat, w': Wit, x': Ctx)
    requires Unique(g.C) && MatchK(g, k, w, pc, x) && x.bp.Some?
    ensures BreakKont(k).Some? && Find(g.C, x.bp.value) == j < |g.C|
    ensures MatchK(g, BreakKont(k).value, w', j, x')
    decreases k, w
  {
    if w.Hop? {
      j, w', x' := BreakLands(g, k, w.tail, w.pc, x);
    } else if k.KSeq? {
      j, w', x' := BreakLands(g, k.k, w.tail, pc + |LowerSeq(g.o, k.rest, w.n, x).cells|, x);
    } else {
      j := BreakFrame(g, k, w, pc, x);
      w', x' := Hop(j + 1, w.tail), w.x;
    }
  }

  /** Each continue point is where the innermost enclosing loop resumes. */
  lemma {:induction false} ContinueLands(g: Prog, k: Kont, w: Wit, pc: nat, x: Ctx) returns (j: nat, w': Wit, x': Ctx)
    requires Unique(g.C) && MatchK(g, k, w, pc, x) && x.cp.Some?
    ensures ContinueKont(k).Some? && Find(g.C, x.cp.value) == j < |g.C|
    ensures MatchK(g, ContinueKont(k).value, w', j, x')
    decreases k, w
  {
    if w.Hop? {
      j, w', x' := ContinueLands(g, k, w.tail, w.pc, x);
    } else if k.KSeq? {
      j, w', x' := ContinueLands(g, k.k, w.tail, pc + |LowerSeq(g.o, k.rest, w.n, x).cells|, x);
    } else if k.KSwitch? {
      j, w', x' := ContinueLands(g, k.k, w.tail, pc + 1, w.x);
    } else {
      ContinueFrame(g, k, w, pc, x);
      j, w', x' := pc, w, x;
    }
  }

  // ----- Conditionals -----

  /** Where the false branch of an unfolded conditional starts. */
  function ElsePos(i: nat, T: seq<Cell>, F: seq<Cell>): nat {
    i + |T| + if F == [] then 1 else 2
  }

  /** What the true branch still has to pass through silently. */
  function ThenWit(w: Wit, end: nat, T: seq<Cell>, F: seq<Cell>): Wit
    requires end > 0
  {
    if F != [] then Hop(end - 1, Hop(end, w)) else if T != [] then Hop(end, w) else w
  }

  function ElseWit(w: Wit, end: nat, T: seq<Cell>, F: seq<Cell>): Wit {
    if T == [] && F == [] then w else Hop(end, w)
  }

  lemma JumpIsSilent(C: seq<Cell>, pc: nat, id: Id)
    requires pc < |C| && C[pc].node == NJump(Some(id)) && Find(C, id) < |C|
    ensures SilentTo(C, pc) == Some(Find(C, id))
  {
    hide Find;
  }

  lemma PesudoIsSilent(C: seq<Cell>, pc: nat)
    requires pc < |C| && C[pc].node == NPesudo
    ensures SilentTo(C, pc) == Some(pc + 1)
  {
  }

  /** A conditional whose true branch is empty: branch, jump, false branch, tail. */
  lemma PlacedIfElse(C: seq<Cell>, i: nat, id: Id, c: Expr, F: seq<Cell>, n: Id)
    requires Unique(C) && F != [] && Placed(C, i, JoinIf(id, c, [], F, n).cells)
    ensures var end := i + |JoinIf(id, c, [], F, n).cells|;
            && end == i + 3 + |F| && end <= |C| && Placed(C, i + 1, []) && Placed(C, i + 2, F)
            && C[i].node == NBranch(Plain(c), Some(n + 1), First(F))
            && Find(C, n + 1) == i + 1 && Find(C, F[0].id) == i + 2
            && SilentTo(C, i + 1) == Some(end - 1) && SilentTo(C, end - 1) == Some(end)
  {
    hide Find, Count, SilentTo;
    var head := [Cell(id, NBranch(Plain(c), Some(n + 1), First(F))), Cell(n + 1, NJump(Some(n)))];
    var tail := [Cell(n, NPesudo)];
    Placed3(C, i, head, F, tail);
    assert Placed(C, i + 1, []);
    hide Placed, JoinIf;
    PlacedCell(C, i, head, 0);
    PlacedCell(C, i, head, 1);
    PlacedCell(C, i + 2, F, 0);
    PlacedCell(C, i + 2 + |F|, tail, 0);
    JumpIsSilent(C, i + 1, n);
    PesudoIsSilent(C, i + 2 + |F|);
  }

  /** A conditional whose false branch is empty: branch, true branch, tail. */
  lemma PlacedIfOnly(C: seq<Cell>, i: nat, id: Id, c: Expr, T: seq<Cell>, n: Id)
    requires Unique(C) && T != [] && Placed(C, i, JoinIf(id, c, T, [], n).cells)
    ensures var end := i + |JoinIf(id, c, T, [], n).cells|;
            && end == i + 2 + |T| && end <= |C| && Placed(C, i + 1, T) && Placed(C, i + 1 + |T|, [])
            && C[i].node == NBranch(Plain(c), First(T), Some(n))
            && Find(C, T[0].id) == i + 1 && Find(C, n) == end - 1
            && SilentTo(C, end - 1) == Some(end)
  {
    hide Find, Count, SilentTo;
    var head := [Cell(id, NBranch(Plain(c), First(T), Some(n)))];
    var tail := [Cell(n, NPesudo)];
    Placed3(C, i, head, T, tail);
    assert Placed(C, i + 1 + |T|, []);
    hide Placed, JoinIf;
    PlacedCell(C, i, head, 0);
    PlacedCell(C, i + 1, T, 0);
    PlacedCell(C, i + 1 + |T|, tail, 0);
    PesudoIsSilent(C, i + 1 + |T|);
  }

  /** Two pieces of code and the three cells before, between and after them. */
  lemma PlacedFive(C: seq<Cell>, i: nat, a: Cell, T: seq<Cell>, b: Cell, F: seq<Cell>, z: Cell)
    requires Unique(C) && T != [] && F != [] && Placed(C, i, [a] + T + [b] + F + [z])
    ensures i + 3 + |T| + |F| <= |C|
    ensures Placed(C, i + 1, T) && Placed(C, i + 2 + |T|, F)
    ensures C[i] == a && C[i + 1 + |T|] == b && C[i + 2 + |T| + |F|] == z
    ensures Find(C, T[0].id) == i + 1 && Find(C, F[0].id) == i + 2 + |T| && Find(C, z.id) == i + 2 + |T| + |F|
  {
    hide Unique, Find, Placed;
    Placed5(C, i, [a], T, [b], F, [z]);
    PlacedCell(C, i, [a], 0);
    PlacedCell(C, i + 1, T, 0);
    PlacedCell(C, i + 1 + |T|, [b], 0);
    PlacedCell(C, i + 2 + |T|, F, 0);
    PlacedCell(C, i + 2 + |T| + |F|, [z], 0);
  }

  /** A conditional with two branches: branch, true branch, jump, false branch, tail. */
  lemma PlacedIfBoth(C: seq<Cell>, i: nat, id: Id, c: Expr, T: seq<Cell>, F: seq<Cell>, n: Id)
    requires Unique(C) && T != [] && F != [] && Placed(C, i, JoinIf(id, c, T, F, n).cells)
    ensures var end := i + |JoinIf(id, c, T, F, n).cells|;
            && end == i + 3 + |T| + |F| && end <= |C| && Placed(C, i + 1, T) && Placed(C, i + 2 + |T|, F)
            && C[i].node == NBranch(Plain(c), First(T), First(F))
            && Find(C, T[0].id) == i + 1 && Find(C, F[0].id) == i + 2 + |T|
            && SilentTo(C, i + 1 + |T|) == Some(end - 1) && SilentTo(C, end - 1) == Some(end)
  {
    hide Unique, Find, SilentTo, Placed;
    var head, jump := Cell(id, NBranch(Plain(c), First(T), First(F))), Cell(n + 1, NJump(Some(n)));
    PlacedFive(C, i, head, T, jump, F, Cell(n, NPesudo));
    JumpIsSilent(C, i + 1 + |T|, n);
    PesudoIsSilent(C, i + 2 + |T| + |F|);
  }

  /** All four shapes at once: where the branches lie, and where control goes after them. */
  lemma PlacedIf(C: seq<Cell>, i: nat, id: Id, c: Expr, T: seq<Cell>, F: seq<Cell>, n: Id)
    requires Unique(C) && Placed(C, i, JoinIf(id, c, T, F, n).cells)
    ensures i < |C| && Placed(C, i + 1, T) && Placed(C, ElsePos(i, T, F), F)
    ensures var end := i + |JoinIf(id, c, T, F, n).cells|;
            && end > i
            && (T == [] && F == [] ==> end == i + 1 && C[i].node == NExpr(Plain(c)))
            && (T != [] || F != [] ==> ElsePos(i, T, F) + |F| + 1 == end)
            && (F != [] ==> SilentTo(C, i + 1 + |T|) == Some(end - 1))
            && (F == [] && T != [] ==> SilentTo(C, i + 1 + |T|) == Some(end))
            && (T != [] || F != [] ==> SilentTo(C, ElsePos(i, T, F) + |F|) == Some(end))
    ensures T != [] || F != [] ==>
              && C[i].node.NBranch? && C[i].node.fe == Plain(c)
              && C[i].node.onTrue.Some? && C[i].node.onFalse.Some?
              && Find(C, C[i].node.onTrue.value) == i + 1 < |C|
              && Find(C, C[i].node.onFalse.value) == ElsePos(i, T, F) < |C|
  {
    hide Find, Count, SilentTo, JoinIf, Placed;
    if T == [] && F == [] { PlacedIfNone(C, i, id, c, n); }
    else if T == [] { PlacedIfElse(C, i, id, c, F, n); }
    else if F == [] { PlacedIfOnly(C, i, id, c, T, n); }
    else { PlacedIfBoth(C, i, id, c, T, F, n); }
  }

  lemma PlacedIfNone(C: seq<Cell>, i: nat, id: Id, c: Expr, n: Id)
    requires Placed(C, i, JoinIf(id, c, [], [], n).cells)
    ensures i < |C| && C[i].node == NExpr(Plain(c)) && Placed(C, i + 1, [])
    ensures |JoinIf(id, c, [], [], n).cells| == 1
  {
  }

  lemma HopFirst(g: Prog, k: Kont, w: Wit, pc: nat, pc': nat, x: Ctx)
    requires SilentTo(g.C, pc) == Some(pc') && MatchK(g, k, w, pc', x)
    ensures MatchK(g, k, Hop(pc', w), pc, x)
  {
  }

  function Then(o: Oracles, s: Stmt, n: Id, x: Ctx): Code
    requires s.If?
  {
    Lower(o, s.thn, n, x)
  }

  function Else(o: Oracles, s: Stmt, n: Id, x: Ctx): Code
    requires s.If?
  {
    var m := Then(o, s, n, x).n;
    if s.els.Some? then Lower(o, s.els.value, m, x) else Code([], m)
  }

  lemma IfShape(o: Oracles, s: Stmt, n: Id, x: Ctx)
    requires s.If? && !FoldsIf(o, s.cond, s.thn, s.els)
    ensures Lower(o, s, n, x) ==
            JoinIf(s.id, s.cond, Then(o, s, n, x).cells, Else(o, s, n, x).cells, Else(o, s, n, x).n)
  {
  }

  // ----- Switches -----

  function SwitchBody(o: Oracles, s: Stmt, n: Id, x: Ctx): Code
    requires s.Switch?
  {
    Lower(o, s.body, SwitchChain(s, n).n, Ctx(Some(n + 2), x.cp, x.rp))
  }

  function SwitchChain(s: Stmt, n: Id): Code
    requires s.Switch?
  {
    Chain(s.labels, n, DefaultTarget(s.labels, n + 2), n + 3)
  }

  lemma PlacedSwitch(o: Oracles, C: seq<Cell>, i: nat, s: Stmt, n: Id, x: Ctx)
    requires Unique(C) && s.Switch? && ContainsLabel(s.body)
    requires Placed(C, i, Lower(o, s, n, x).cells)
    ensures i < |C| && C[i].node == NExpr(SetSelector(n, s.e))
    ensures var chain, B := SwitchChain(s, n).cells, SwitchBody(o, s, n, x).cells;
            var p := i + 1 + |chain|;
            && Placed(C, i + 1, chain) && Placed(C, p, B)
            && p + |B| < |C| && C[p + |B|] == Cell(n + 2, NPesudo) && Find(C, n + 2) == p + |B|
            && i + |Lower(o, s, n, x).cells| == p + |B| + 1
  {
    var assign, chain, B :=
      [Cell(n + 1, NExpr(SetSelector(n, s.e)))], SwitchChain(s, n).cells, SwitchBody(o, s, n, x).cells;
    var bp := [Cell(n + 2, NPesudo)];
    SwitchShape(o, s, n, x);
    hide Lower, Find, Count, SwitchChain, SwitchBody, ContainsLabel;
    Placed3(C, i, assign + chain, B, bp);
    PlacedAppend(C, i, assign, chain);
    PlacedCell(C, i, assign, 0);
    PlacedCell(C, i + |assign + chain| + |B|, bp, 0);
  }

  lemma SwitchShape(o: Oracles, s: Stmt, n: Id, x: Ctx)
    requires s.Switch? && ContainsLabel(s.body)
    ensures Lower(o, s, n, x).cells == [Cell(n + 1, NExpr(SetSelector(n, s.e)))] + SwitchChain(s, n).cells
                                       + SwitchBody(o, s, n, x).cells + [Cell(n + 2, NPesudo)]
  {
  }

  // ----- Entering a construct: its body is placed, and resumes the construct -----

  lemma EnterWhile(g: Prog, s: Stmt, k: Kont, n: Id, x: Ctx, w: Wit, pc: nat)
    requires Unique(g.C) && s.While? && !DropsBody(g.o, s.cond, s.body)
    requires Runs(g, s, k, n, x, w, pc)
    ensures var y := WhileCtx(g.o, s.cond, s.body, n, g.exit);
            && MatchK(g, KWhile(s.cond, s.body, k), Frame(pc, n, x, w), pc, y)
            && Runs(g, s.body, KWhile(s.cond, s.body, k), WhileBp(g.o, s.cond, s.body, n) + 1, y,
                    Hop(pc, Frame(pc, n, x, w)), pc + |WhileHead(g.o, s.cond, s.body, n, g.exit)|)
  {
    hide Lower, Find, WhileHead;
    PlacedWhile(g.o, g.C, pc, s.cond, s.body, n, x);
    assert s == While(s.cond, s.body);
    var k', w', y := KWhile(s.cond, s.body, k), Frame(pc, n, x, w), WhileCtx(g.o, s.cond, s.body, n, g.exit);
    assert MatchFrame(g, k', w', pc, y);
  }

  lemma EnterDo(g: Prog, s: Stmt, k: Kont, n: Id, x: Ctx, w: Wit, pc: nat)
    requires Unique(g.C) && s.DoWhile?
    requires Runs(g, s, k, n, x, w, pc)
    ensures Runs(g, s.body, KDo(s.body, s.cond, k), n + 2, DoCtx(n, g.exit), Frame(pc, n, x, w),
                 pc + DoHead(g.o, s.cond, s.body))
  {
    hide Lower, Find, DoTail;
    PlacedDo(g.o, g.C, pc, s.cond, s.body, n, x);
    assert s == DoWhile(s.body, s.cond);
    assert MatchFrame(g, KDo(s.body, s.cond, k), Frame(pc, n, x, w),
                      pc + DoHead(g.o, s.cond, s.body) + |DoBody(g.o, s.body, n, g.exit).cells|, DoCtx(n, g.exit));
  }

  lemma EnterFor(g: Prog, c: Expr, inc: Expr, b: Stmt, k: Kont, n: Id, x: Ctx, w: Wit, pc: nat)
    requires Unique(g.C) && !DropsBody(g.o, c, b)
    requires Tests(g, c, inc, b, k, n, x, w, pc)
    ensures Runs(g, b, KFor(c, inc, b, k), ForBp(g.o, c, b, n) + 1, ForCtx(g.o, c, b, n, g.exit), Frame(pc, n, x, w),
                 pc + |ForHead(g.o, c, b, n, g.exit)|)
  {
    hide Lower, LowerForTest, Find, ForHead;
    PlacedFor(g.o, g.C, pc, c, inc, b, n, x);
    assert MatchFrame(g, KFor(c, inc, b, k), Frame(pc, n, x, w),
                      pc + |ForHead(g.o, c, b, n, g.exit)| + |ForBody(g.o, c, b, n, g.exit).cells|,
                      ForCtx(g.o, c, b, n, g.exit));
  }

  /** A for statement is its optional first clause and then its test. */
  lemma EnterForInit(g: Prog, s: Stmt, k: Kont, n: Id, x: Ctx, w: Wit, pc: nat)
    requires Unique(g.C) && s.For?
    requires Runs(g, s, k, n, x, w, pc)
    ensures var I := OptExpr(g.o, s.init, n);
            && Placed(g.C, pc, I.cells)
            && Tests(g, s.cond, s.inc, s.body, k, I.n, x, w, pc + |I.cells|)
  {
    hide MatchK, OptExpr, LowerForTest;
    var I := OptExpr(g.o, s.init, n);
    PlacedAppend(g.C, pc, I.cells, LowerForTest(g.o, s.cond, s.inc, s.body, I.n, x).cells);
  }

  lemma EnterBlock(g: Prog, s: Stmt, k: Kont, n: Id, x: Ctx, w: Wit, pc: nat)
    requires s.Block? && Runs(g, s, k, n, x, w, pc)
    ensures RunsSeq(g, s.stmts, k, n, x, w, pc)
  {
    hide MatchK;
  }

  lemma EnterSwitch(g: Prog, s: Stmt, k: Kont, n: Id, x: Ctx, w: Wit, pc: nat)
    requires Unique(g.C) && s.Switch? && ContainsLabel(s.body)
    requires Runs(g, s, k, n, x, w, pc)
    ensures Runs(g, s.body, KSwitch(k), SwitchChain(s, n).n, Ctx(Some(n + 2), x.cp, x.rp), Frame(pc, n, x, w),
                 pc + 1 + |SwitchChain(s, n).cells|)
  {
    hide Lower, Find, SwitchChain;
    PlacedSwitch(g.o, g.C, pc, s, n, x);
    assert MatchFrame(g, KSwitch(k), Frame(pc, n, x, w),
                      pc + 1 + |SwitchChain(s, n).cells| + |SwitchBody(g.o, s, n, x).cells|,
                      Ctx(Some(n + 2), x.cp, x.rp));
  }

  lemma OkBranches(g: Prog, s: Stmt, x: Ctx)
    requires s.If? && !FoldsIf(g.o, s.cond, s.thn, s.els) && OkIn(g, s, x)
    ensures OkIn(g, s.thn, x) && (s.els.Some? ==> OkIn(g, s.els.value, x))
  {
  }

  /** Both branches of an unfolded conditional resume its continuation. */
  lemma EnterThen(g: Prog, s: Stmt, k: Kont, n: Id, x: Ctx, w: Wit, pc: nat)
    requires Unique(g.C) && s.If? && !FoldsIf(g.o, s.cond, s.thn, s.els)
    requires Runs(g, s, k, n, x, w, pc)
    ensures IfEnd(g, s, n, x, pc) > 0
    ensures Runs(g, s.thn, k, n, x,
                 ThenWit(w, IfEnd(g, s, n, x, pc), Then(g.o, s, n, x).cells, Else(g.o, s, n, x).cells), pc + 1)
  {
    hide MatchK, Lower, Find, Count, JoinIf, SilentTo, Placed, OkIn, FoldsIf;
    IfShape(g.o, s, n, x);
    OkBranches(g, s, x);
    var T, F, end := Then(g.o, s, n, x).cells, Else(g.o, s, n, x).cells, IfEnd(g, s, n, x, pc);
    PlacedIf(g.C, pc, s.id, s.cond, T, F, Else(g.o, s, n, x).n);
    if F != [] {
      HopFirst(g, k, w, end - 1, end, x);
      HopFirst(g, k, Hop(end, w), pc + 1 + |T|, end - 1, x);
    } else if T != [] {
      HopFirst(g, k, w, end - 1, end, x);
    }
  }

  lemma EnterElse(g: Prog, s: Stmt, k: Kont, n: Id, x: Ctx, w: Wit, pc: nat)
    requires Unique(g.C) && s.If? && !FoldsIf(g.o, s.cond, s.thn, s.els)
    requires Runs(g, s, k, n, x, w, pc)
    ensures var T, F := Then(g.o, s, n, x), Else(g.o, s, n, x).cells;
            var w', p := ElseWit(w, IfEnd(g, s, n, x, pc), T.cells, F), ElsePos(pc, T.cells, F);
            && (s.els.Some? ==> Runs(g, s.els.value, k, T.n, x, w', p))
            && (s.els.None? ==> MatchK(g, k, w', p, x))
  {
    hide MatchK, Lower, Find, Count, JoinIf, SilentTo, Placed, OkIn, FoldsIf;
    IfShape(g.o, s, n, x);
    OkBranches(g, s, x);
    var T, F, end := Then(g.o, s, n, x).cells, Else(g.o, s, n, x).cells, IfEnd(g, s, n, x, pc);
    PlacedIf(g.C, pc, s.id, s.cond, T, F, Else(g.o, s, n, x).n);
    if T != [] || F != [] {
      HopFirst(g, k, w, ElsePos(pc, T, F) + |F|, end, x);
    }
  }

  function IfEnd(g: Prog, s: Stmt, n: Id, x: Ctx, pc: nat): nat {
    pc + |Lower(g.o, s, n, x).cells|
  }

  /** A folded conditional keeps at most one branch, after the optional condition. */
  lemma EnterFoldedIf(g: Prog, s: Stmt, k: Kont, n: Id, x: Ctx, w: Wit, pc: nat)
    requires Unique(g.C) && s.If? && FoldsIf(g.o, s.cond, s.thn, s.els)
    requires Runs(g, s, k, n, x, w, pc)
    ensures var pre := OptExpr(g.o, s.cond, n);
            && Placed(g.C, pc, pre.cells)
            && (g.o.isTrue(s.cond) ==> Runs(g, s.thn, k, pre.n, x, w, pc + |pre.cells|))
            && (!g.o.isTrue(s.cond) && s.els.Some? ==> Runs(g, s.els.value, k, pre.n, x, w, pc + |pre.cells|))
            && (!g.o.isTrue(s.cond) && s.els.None? ==> MatchK(g, k, w, pc + |pre.cells|, x))
  {
    var pre := OptExpr(g.o, s.cond, n);
    PlacedAppend(g.C, pc, pre.cells, Lower(g.o, s.thn, pre.n, x).cells);
    if s.els.Some? { PlacedAppend(g.C, pc, pre.cells, Lower(g.o, s.els.value, pre.n, x).cells); }
    hide MatchK, OptExpr;
  }

  lemma OkBody(g: Prog, s: Stmt, x: Ctx)
    requires (s.Label? || s.Case? || s.Default?) && OkIn(g, s, x)
    ensures OkIn(g, s.body, x)
  {
  }

  /** The body of a label follows its node. */
  lemma LabelCode(o: Oracles, s: Stmt, n: Id, x: Ctx)
    requires s.Label? || s.Case? || s.Default?
    ensures var code := Lower(o, s, n, x); var B := Lower(o, s.body, n, x);
            code.cells != [] && code.cells[0].id == s.id && code.cells == [code.cells[0]] + B.cells && code.n == B.n
  {
  }

  lemma EnterLabel(g: Prog, s: Stmt, k: Kont, n: Id, x: Ctx, w: Wit, pc: nat)
    requires Unique(g.C) && (s.Label? || s.Case? || s.Default?)
    requires Runs(g, s, k, n, x, w, pc)
    ensures Runs(g, s.body, k, n, x, w, pc + 1)
    ensures pc < |g.C| && g.C[pc] == Lower(g.o, s, n, x).cells[0] && Find(g.C, s.id) == pc
    ensures var B := Lower(g.o, s.body, n, x).cells;
            B != [] ==> Find(g.C, B[0].id) == pc + 1 < |g.C|
  {
    hide MatchK, Find, Count, OkIn, Unique, Lower;
    OkBody(g, s, x);
    var code, B := Lower(g.o, s, n, x).cells, Lower(g.o, s.body, n, x).cells;
    LabelCode(g.o, s, n, x);
    PlacedAppend(g.C, pc, [code[0]], B);
    PlacedCell(g.C, pc, code, 0);
    if B != [] { PlacedCell(g.C, pc + 1, B, 0); }
  }

  lemma EnterSeq(g: Prog, ss: seq<Stmt>, k: Kont, n: Id, x: Ctx, w: Wit, pc: nat)
    requires Unique(g.C) && ss != [] && RunsSeq(g, ss, k, n, x, w, pc)
    ensures var a := Lower(g.o, ss[0], n, x);
            && Runs(g, ss[0], KSeq(ss[1..], k), n, x, Frame(pc, a.n, x, w), pc)
            && RunsSeq(g, ss[1..], k, a.n, x, w, pc + |a.cells|)
  {
    hide Lower;
    var a := Lower(g.o, ss[0], n, x);
    PlacedAppend(g.C, pc, a.cells, LowerSeq(g.o, ss[1..], a.n, x).cells);
    assert MatchFrame(g, KSeq(ss[1..], k), Frame(pc, a.n, x, w), pc + |a.cells|, x);
  }

  // ----- Labels -----

  lemma {:induction false} FindLabelIn(s: Stmt, l: Id, k: Kont)
    ensures FindLabel(s, l, k).Some? <==> l in AllLabels(s)
    decreases s, 1
  {
    match s
    case Label(id, b) => FindLabelIn(b, l, k);
    case Case(id, _, b) => FindLabelIn(b, l, k);
    case Default(id, b) => FindLabelIn(b, l, k);
    case Block(ss) => FindLabelSeqIn(ss, l, k);
    case If(_, _, t, e) =>
      FindLabelIn(t, l, k);
      if e.Some? { FindLabelIn(e.value, l, k); }
    case While(c, b) => FindLabelIn(b, l, KWhile(c, b, k));
    case DoWhile(b, c) => FindLabelIn(b, l, KDo(b, c, k));
    case For(_, c, inc, b) => FindLabelIn(b, l, KFor(c, inc, b, k));
    case Switch(_, b, _) => FindLabelIn(b, l, KSwitch(k));
    case _ =>
  }

  lemma {:induction false} FindLabelSeqIn(ss: seq<Stmt>, l: Id, k: Kont)
    ensures FindLabelSeq(ss, l, k).Some? <==> l in AllLabelsSeq(ss)
    decreases ss, 0
  {
    if ss != [] {
      FindLabelIn(ss[0], l, KSeq(ss[1..], k));
      FindLabelSeqIn(ss[1..], l, k);
    }
  }

  /** The labelled statement found is the one whose node the machine finds, with the same future. */
  ghost predicate Lands(g: Prog, found: Option<(Stmt, Kont)>, l: Id, n: Id, x: Ctx, w: Wit, pc: nat) {
    found.Some? && Runs(g, found.value.0, found.value.1, n, x, w, pc) && Find(g.C, l) == pc < |g.C|
  }

  lemma {:induction false} LabelLands(g: Prog, s: Stmt, l: Id, k: Kont, n: Id, x: Ctx, w: Wit, pc: nat)
    returns (n': Id, x': Ctx, w': Wit, pc': nat)
    requires Unique(g.C) && l in Kept(g.o, s)
    requires Runs(g, s, k, n, x, w, pc)
    ensures Lands(g, FindLabel(s, l, k), l, n', x', w', pc')
    decreases s, 1
  {
    hide Runs, MatchK, Lower, LowerSeq, Tests, RunsSeq;
    match s
    case Block(ss) =>
      EnterBlock(g, s, k, n, x, w, pc);
      n', x', w', pc' := LabelSeqLands(g, ss, l, k, n, x, w, pc);
    case If(_, _, _, _) =>
      n', x', w', pc' := IfLands(g, s, l, k, n, x, w, pc);
    case While(c, b) =>
      EnterWhile(g, s, k, n, x, w, pc);
      n', x', w', pc' := LabelLands(g, b, l, KWhile(c, b, k), WhileBp(g.o, c, b, n) + 1, WhileCtx(g.o, c, b, n, g.exit),
                                    Hop(pc, Frame(pc, n, x, w)), pc + |WhileHead(g.o, c, b, n, g.exit)|);
    case DoWhile(b, c) =>
      EnterDo(g, s, k, n, x, w, pc);
      n', x', w', pc' := LabelLands(g, b, l, KDo(b, c, k), n + 2, DoCtx(n, g.exit), Frame(pc, n, x, w),
                                    pc + DoHead(g.o, c, b));
    case For(i, c, inc, b) =>
      var I := OptExpr(g.o, i, n);
      var p := pc + |I.cells|;
      EnterForInit(g, s, k, n, x, w, pc);
      EnterFor(g, c, inc, b, k, I.n, x, w, p);
      n', x', w', pc' := LabelLands(g, b, l, KFor(c, inc, b, k), ForBp(g.o, c, b, I.n) + 1,
                                    ForCtx(g.o, c, b, I.n, g.exit), Frame(p, I.n, x, w),
                                    p + |ForHead(g.o, c, b, I.n, g.exit)|);
    case Switch(_, b, _) =>
      EnterSwitch(g, s, k, n, x, w, pc);
      n', x', w', pc' := LabelLands(g, b, l, KSwitch(k), SwitchChain(s, n).n, Ctx(Some(n + 2), x.cp, x.rp),
                                    Frame(pc, n, x, w), pc + 1 + |SwitchChain(s, n).cells|);
    case Label(_, _) => n', x', w', pc' := BodyLands(g, s, l, k, n, x, w, pc);
    case Case(_, _, _) => n', x', w', pc' := BodyLands(g, s, l, k, n, x, w, pc);
    case Default(_, _) => n', x', w', pc' := BodyLands(g, s, l, k, n, x, w, pc);
    case _ =>
  }

  lemma {:induction false} BodyLands(g: Prog, s: Stmt, l: Id, k: Kont, n: Id, x: Ctx, w: Wit, pc: nat)
    returns (n': Id, x': Ctx, w': Wit, pc': nat)
    requires Unique(g.C) && l in Kept(g.o, s) && (s.Label? || s.Case? || s.Default?)
    requires Runs(g, s, k, n, x, w, pc)
    ensures Lands(g, FindLabel(s, l, k), l, n', x', w', pc')
    decreases s, 0
  {
    hide Runs, MatchK, Lower;
    EnterLabel(g, s, k, n, x, w, pc);
    if s.id == l {
      n', x', w', pc' := n, x, w, pc;
    } else {
      n', x', w', pc' := LabelLands(g, s.body, l, k, n, x, w, pc + 1);
    }
  }

  lemma {:induction false} IfLands(g: Prog, s: Stmt, l: Id, k: Kont, n: Id, x: Ctx, w: Wit, pc: nat)
    returns (n': Id, x': Ctx, w': Wit, pc': nat)
    requires Unique(g.C) && l in Kept(g.o, s) && s.If?
    requires Runs(g, s, k, n, x, w, pc)
    ensures Lands(g, FindLabel(s, l, k), l, n', x', w', pc')
    decreases s, 0
  {
    var If(_, c, t, e) := s;
    FindLabelIn(t, l, k);
    BranchLabelsApart(g, s, l, x);
    if FoldsIf(g.o, c, t, e) {
      var pre := OptExpr(g.o, c, n);
      EnterFoldedIf(g, s, k, n, x, w, pc);
      hide Runs, MatchK, Lower, OptExpr, FoldsIf, OkIn;
      if g.o.isTrue(c) {
        n', x', w', pc' := LabelLands(g, t, l, k, pre.n, x, w, pc + |pre.cells|);
      } else {
        n', x', w', pc' := LabelLands(g, e.value, l, k, pre.n, x, w, pc + |pre.cells|);
      }
    } else {
      hide Runs, MatchK, Lower, ThenWit, ElseWit, ElsePos, OkIn;
      var T, F, end := Then(g.o, s, n, x), Else(g.o, s, n, x).cells, IfEnd(g, s, n, x, pc);
      if l in Kept(g.o, t) {
        EnterThen(g, s, k, n, x, w, pc);
        n', x', w', pc' := LabelLands(g, t, l, k, n, x, ThenWit(w, end, T.cells, F), pc + 1);
      } else {
        EnterElse(g, s, k, n, x, w, pc);
        n', x', w', pc' := LabelLands(g, e.value, l, k, T.n, x, ElseWit(w, end, T.cells, F), ElsePos(pc, T.cells, F));
      }
    }
  }

  /** A kept label of one branch does not also name a label of the other. */
  lemma BranchLabelsApart(g: Prog, s: Stmt, l: Id, x: Ctx)
    requires s.If? && OkIn(g, s, x)
    ensures l in Kept(g.o, s.thn) ==> l in AllLabels(s.thn)
    ensures s.els.Some? && l in Kept(g.o, s.els.value) ==> l !in AllLabels(s.thn)
  {
    KeptIn(g.o, s.thn);
    if s.els.Some? { KeptIn(g.o, s.els.value); }
  }

  lemma {:induction false} KeptIn(o: Oracles, s: Stmt)
    ensures Kept(o, s) <= AllLabels(s)
    decreases s, 1
  {
    match s
    case Label(_, b) => KeptIn(o, b);
    case Case(_, _, b) => KeptIn(o, b);
    case Default(_, b) => KeptIn(o, b);
    case Block(ss) => KeptSeqIn(o, ss);
    case If(_, _, t, e) =>
      KeptIn(o, t);
      if e.Some? { KeptIn(o, e.value); }
    case While(_, b) => KeptIn(o, b);
    case DoWhile(b, _) => KeptIn(o, b);
    case For(_, _, _, b) => KeptIn(o, b);
    case Switch(_, b, _) => KeptIn(o, b);
    case _ =>
  }

  lemma {:induction false} KeptSeqIn(o: Oracles, ss: seq<Stmt>)
    ensures KeptSeq(o, ss) <= AllLabelsSeq(ss)
    decreases ss, 0
  {
    if ss != [] {
      KeptIn(o, ss[0]);
      KeptSeqIn(o, ss[1..]);
    }
  }

  lemma {:induction false} LabelSeqLands(g: Prog, ss: seq<Stmt>, l: Id, k: Kont, n: Id, x: Ctx, w: Wit, pc: nat)
    returns (n': Id, x': Ctx, w': Wit, pc': nat)
    requires Unique(g.C) && l in KeptSeq(g.o, ss)
    requires RunsSeq(g, ss, k, n, x, w, pc)
    ensures Lands(g, FindLabelSeq(ss, l, k), l, n', x', w', pc')
    decreases ss, 0
  {
    hide Runs, MatchK, Lower, LowerSeq;
    var a := Lower(g.o, ss[0], n, x);
    assert AllLabels(ss[0]) !! AllLabelsSeq(ss[1..]);
    KeptIn(g.o, ss[0]);
    KeptSeqIn(g.o, ss[1..]);
    EnterSeq(g, ss, k, n, x, w, pc);
    FindLabelIn(ss[0], l, KSeq(ss[1..], k));
    hide RunsSeq, OkSeqIn;
    if l in Kept(g.o, ss[0]) {
      n', x', w', pc' := LabelLands(g, ss[0], l, KSeq(ss[1..], k), n, x, Frame(pc, a.n, x, w), pc);
    } else {
      n', x', w', pc' := LabelSeqLands(g, ss[1..], l, k, a.n, x, w, pc + |a.cells|);
    }
  }

  // ----- where nodes point inside their own code -----

  /** The next node of the code, if there is one. */
  function NextNode(cells: seq<Cell>, i: nat): Option<Id> {
    if i + 1 < |cells| then Some(cells[i + 1].id) else None
  }

  /** A label stands in front of its statement's code and points at the first node of it. */
  lemma LabelPointsNext(o: Oracles, s: Stmt, n: Id, x: Ctx)
    requires s.Label? || s.Case? || s.Default?
    ensures var cells := Lower(o, s, n, x).cells;
            && |cells| == 1 + |Lower(o, s.body, n, x).cells| && cells[0].id == s.id
            && var node := cells[0].node;
            && (s.Label? ==> node == NLabel(NextNode(cells, 0)))
            && (s.Case? ==> node == NCase(s.e, NextNode(cells, 0)))
            && (s.Default? ==> node == NDefault(NextNode(cells, 0)))
  {
  }

  /** A tested conditional's branch never has a null target, and points at the next node if its branch has code. */
  lemma BranchPointsNext(o: Oracles, s: Stmt, n: Id, x: Ctx)
    requires s.If? && !FoldsIf(o, s.cond, s.thn, s.els)
    ensures var cells := Lower(o, s, n, x).cells;
            && cells != [] && (cells[0].node.NExpr? || cells[0].node.NBranch?) && cells[0].node.fe == Plain(s.cond)
            && (cells[0].node.NBranch? ==>
                  && cells[0].id == s.id && cells[0].node.onTrue.Some? && cells[0].node.onFalse.Some?
                  && (Lower(o, s.thn, n, x).cells != [] ==> cells[0].node.onTrue == NextNode(cells, 0)))
            && (Lower(o, s.thn, n, x).cells != [] ==> cells[0].node.NBranch?)
  {
  }

  /** A tested loop's branch points at the next node exactly if the body has code, and has a null target otherwise. */
  lemma LoopPointsNext(o: Oracles, c: Expr, inc: Expr, b: Stmt, n: Id, x: Ctx)
    requires !FoldsLoop(o, c, b)
    ensures var cells := Lower(o, While(c, b), n, x).cells;
            && |cells| >= 3 && cells[1].node.NBranch? && cells[1].node.fe == Plain(c)
            && var body := Lower(o, b, n + 3, Ctx(Some(n + 2), Some(n), x.rp)).cells;
            && cells[1].node.onTrue == (if body == [] then None else NextNode(cells, 1))
            && cells[1].node.onFalse == Some(cells[|cells| - 1].id)
    ensures var cells := LowerForTest(o, c, inc, b, n, x).cells;
            && |cells| >= 3 && cells[1].node.NBranch? && cells[1].node.fe == Plain(c)
            && var body := Lower(o, b, n + 4, Ctx(Some(n + 3), Some(n + 1), x.rp)).cells;
            && cells[1].node.onTrue == (if body == [] then None else NextNode(cells, 1))
            && cells[1].node.onFalse == Some(cells[|cells| - 1].id)
  {
  }
}
