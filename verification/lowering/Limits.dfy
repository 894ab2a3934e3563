/**
  Functions the pass gets wrong: their dropped code holds a label that the
  label search, which looks through blocks only, did not see.
 */
module Limits {
  import opened Wrappers
  import opened Syntax
  import opened Semantics
  import opened Lowering
  import opened WellFormed
  import opened FlatLayout
  import opened Matching
  import opened Simulation
  import opened Closed
  import opened Preservation

  /** `goto l; if (c) while (d) l: e;` */
  function HiddenLabel(c: Expr, d: Expr, e: Expr): seq<Stmt> {
    [Goto(0, 1), If(3, c, While(d, Label(1, Exp(2, e))), None)]
  }

  /** The labelled statement and the loop around it. */
  lemma {:induction false} HiddenBody(sem: Sem, d: Expr, e: Expr)
    ensures var body := While(d, Label(1, Exp(2, e)));
            NodeIds(body) == {1, 2} && AllLabels(body) == {1} && DistinctIds(body) && Static(sem, body, false, false)
  {
    var leaf := Exp(2, e);
    assert NodeIds(leaf) == {2} && AllLabels(leaf) == {} && DistinctIds(leaf) && Static(sem, leaf, true, true);
    var inner := Label(1, leaf);
    assert NodeIds(inner) == {1, 2} && AllLabels(inner) == {1} && DistinctIds(inner);
    assert Static(sem, inner, true, true);
  }

  lemma {:induction false} HiddenIf(sem: Sem, c: Expr, d: Expr, e: Expr)
    ensures var s := If(3, c, While(d, Label(1, Exp(2, e))), None);
            NodeIds(s) == {1, 2, 3} && AllLabels(s) == {1} && DistinctIds(s) && Static(sem, s, false, false)
  {
    HiddenBody(sem, d, e);
  }

  /** The same for a list of one statement. */
  lemma {:induction false} OneStatement(sem: Sem, s: Stmt)
    ensures NodeIdsSeq([s]) == NodeIds(s) && AllLabelsSeq([s]) == AllLabels(s)
    ensures DistinctIdsSeq([s]) <==> DistinctIds(s)
    ensures StaticSeq(sem, [s], false, false) <==> Static(sem, s, false, false)
  {
    hide NodeIds, AllLabels, DistinctIds, Static;
    assert [s][1..] == [];
    assert NodeIdsSeq([]) == {} && AllLabelsSeq([]) == {} && DistinctIdsSeq([]) && StaticSeq(sem, [], false, false);
  }

  lemma {:induction false} HiddenKept(L: set<Id>, c: Expr, d: Expr, e: Expr)
    ensures var o, s := NoFolding(), If(3, c, While(d, Label(1, Exp(2, e))), None);
            Kept(o, s) == {1} && JumpsKept(o, L, s)
  {
    var o := NoFolding();
    var leaf := Exp(2, e);
    assert Kept(o, leaf) == {} && JumpsKept(o, L, leaf);
    var inner := Label(1, leaf);
    assert Kept(o, inner) == {1} && JumpsKept(o, L, inner);
    var body := While(d, inner);
    assert Kept(o, body) == {1} && JumpsKept(o, L, body);
  }

  lemma {:induction false} HiddenLabelStatic(sem: Sem, c: Expr, d: Expr, e: Expr)
    ensures WellFormedFunction(sem, HiddenLabel(c, d, e), 4)
    ensures KeepsTargets(NoFolding(), HiddenLabel(c, d, e))
  {
    var fn := HiddenLabel(c, d, e);
    var o := NoFolding();
    var s := fn[1];
    assert fn[1..] == [s] && [s][1..] == [];
    HiddenIf(sem, c, d, e);
    HiddenKept(KeptSeq(o, fn), c, d, e);
    hide NodeIds, AllLabels, DistinctIds, Static, Kept, JumpsKept;
    OneStatement(sem, s);
    HiddenGoto(sem, o, KeptSeq(o, fn));
    assert NodeIdsSeq(fn) == {0, 1, 2, 3};
    assert KeptSeq(o, []) == {} && KeptSeq(o, [s]) == {1};
    assert JumpsKeptSeq(o, KeptSeq(o, fn), []) && JumpsKeptSeq(o, KeptSeq(o, fn), [s]);
  }

  lemma {:induction false} HiddenGoto(sem: Sem, o: Oracles, L: set<Id>)
    ensures var g := Goto(0, 1);
            && NodeIds(g) == {0} && AllLabels(g) == {} && DistinctIds(g) && Static(sem, g, false, false)
            && Kept(o, g) == {} && (JumpsKept(o, L, g) <==> 1 in L)
  {
  }

  /** A false constant drops the conditional with its label, and the goto has nowhere to go. */
  lemma HiddenLabelLost(sem: Sem, o: Oracles, c: Expr, d: Expr, e: Expr, st: Store)
    requires o.isConst(c) && !o.isTrue(c)
    ensures WellFormedFunction(sem, HiddenLabel(c, d, e), 4)
    ensures FlatEnds(sem, LowerFunction(o, HiddenLabel(c, d, e), 4).cells, 4, st, Wild)
    ensures !Ends(sem, HiddenLabel(c, d, e), st, Wild)
  {
    var fn := HiddenLabel(c, d, e);
    HiddenLabelStatic(sem, c, d, e);
    NeverWild(sem, NoFolding(), fn, 4, st);
    LoweringPreservesMeaning(sem, NoFolding(), fn, 4, st, Wild);
    var x := Ctx(None, None, 4);
    var pre := OptExpr(o, c, 5);
    var goto := Cell(0, NGoto(Some(1)));
    assert fn[1..] == [fn[1]] && fn[1..][1..] == [];
    assert Lower(o, fn[1], 5, x) == pre && Lower(o, fn[0], 5, x) == Code([goto], 5);
    assert LowerSeq(o, [], pre.n, x).cells == [];
    assert LowerSeq(o, fn[1..], 5, x).cells == pre.cells;
    var C := LowerFunction(o, fn, 4).cells;
    assert C == [goto] + pre.cells && C[1..] == pre.cells;
    if pre.cells != [] { assert pre.cells[1..] == [] && Find([], 1) == 0; }
    assert Find(pre.cells, 1) == |pre.cells|;
    assert Find(C, 1) == |C|;
    assert FlatSteps(sem, C, 4, At(0, st, map[]), 1) == Halt(Wild);
  }

  // ----- Which runs are lost -----

  /** A label in dropped code is no node of the list. */
  lemma DroppedUnplaced(sem: Sem, o: Oracles, fn: seq<Stmt>, n: Id, t: Id)
    requires WellFormedFunction(sem, fn, n) && t in AllLabelsSeq(fn) && t !in KeptSeq(o, fn)
    ensures Find(LowerFunction(o, fn, n).cells, t) == |LowerFunction(o, fn, n).cells|
  {
    LabelsPlacedSeq(o, fn, n + 1, Ctx(None, None, n), t);
    FindAbsent(LowerFunction(o, fn, n).cells, t);
  }

  /** A lost goto sends the machine nowhere. */
  lemma LostIsWild(g: Prog, s: State, f: Flat, w: StateWit)
    requires GoodProg(g) && MatchS(g, s, f, w) && Lost(g, s)
    requires WellFormedFunction(g.sem, g.fn, g.exit) && g.may <= KeptSeq(g.o, g.fn) + AllLabelsSeq(g.fn)
    ensures FSteps(g, f, 1) == Halt(Wild)
  {
    assert s.s.target in g.may;
    DroppedUnplaced(g.sem, g.o, g.fn, g.exit, s.s.target);
    PlacedCell(g.C, f.pc, Lower(g.o, s.s, w.n, w.x).cells, 0);
    hide MatchK, OkIn, Find, Count, Lower, KeptSeq, LowerFunction;
    assert FSteps(g, f, 1) == FStep(g, f);
  }

  /**
    With its switches kept, the list ends in a wild jump from exactly the stores from which the function comes to a
    goto whose label lies in dropped code; from all others it has the function's outcomes.
   */
  lemma LostExactly(sem: Sem, o: Oracles, fn: seq<Stmt>, n: Id, st: Store)
    requires OraclesSound(sem, o) && WellFormedFunction(sem, fn, n) && KeepsSwitches(o, fn)
    requires GotoTargetsSeq(fn) <= AllLabelsSeq(fn)
    ensures FlatEnds(sem, LowerFunction(o, fn, n).cells, n, st, Wild) <==> ComesToLost(sem, o, fn, n, st)
    ensures !ComesToLost(sem, o, fn, n, st) ==>
              forall out :: Ends(sem, fn, st, out) <==> FlatEnds(sem, LowerFunction(o, fn, n).cells, n, st, out)
  {
    hide GoodProg, MatchS, WellFormedFunction, OraclesSound, Lost, LowerFunction, KeptSeq, JumpsKeptSeq;
    var g := ProgOf(sem, o, fn, n);
    var s, f, w := Start(fn, st), At(0, st, map[]), StartWit(n);
    if ComesToLost(sem, o, fn, n, st) {
      FunctionMatches(g, st);
      var a: nat :| Lost(g, Steps(sem, fn, s, a));
      var b := FirstLost(g, s, a);
      var m, w' := ReachesLost(g, s, f, w, b);
      LostIsWild(g, Steps(sem, fn, s, b), FSteps(g, f, m), w');
      FStepsAdd(g, f, m, 1);
      assert FlatSteps(sem, g.C, n, f, m + 1) == Halt(Wild);
    } else {
      WildOnlyIfLost(sem, o, fn, n, st);
      forall out ensures Ends(sem, fn, st, out) <==> FlatEnds(sem, LowerFunction(o, fn, n).cells, n, st, out) {
        PreservedUnlessLost(sem, o, fn, n, st, out);
      }
    }
  }

  lemma {:induction false} FirstLost(g: Prog, s: State, a: nat) returns (b: nat)
    requires Lost(g, Steps(g.sem, g.fn, s, a))
    ensures Lost(g, Steps(g.sem, g.fn, s, b)) && forall i: nat :: i < b ==> !Lost(g, Steps(g.sem, g.fn, s, i))
    decreases a
  {
    if i: nat :| i < a && Lost(g, Steps(g.sem, g.fn, s, i)) {
      b := FirstLost(g, s, i);
    } else {
      b := a;
    }
  }

  /** `switch (e) while (d) case k: return;` */
  function HiddenCase(e: Expr, d: Expr, k: Expr): seq<Stmt> {
    [Switch(e, While(d, Case(0, k, Return(1, None))), [CaseLabel(0, k)])]
  }

  /** A switch whose labels all lie inside a loop is never entered. */
  lemma HiddenCaseLost(sem: Sem, o: Oracles, e: Expr, d: Expr, k: Expr, st: Store)
    requires PureCase(sem, CaseLabel(0, k))
    requires sem.eval(e, st).Value? && ULong(sem.eval(e, st).v) == ULong(sem.caseValue(k))
    ensures WellFormedFunction(sem, HiddenCase(e, d, k), 2)
    ensures Ends(sem, HiddenCase(e, d, k), st, Returned(None, sem.eval(e, st).st))
    ensures FlatEnds(sem, LowerFunction(o, HiddenCase(e, d, k), 2).cells, 2, st, Fell(sem.eval(e, st).st))
  {
    var fn, st' := HiddenCase(e, d, k), sem.eval(e, st).st;
    var inner := Case(0, k, Return(1, None));
    var body := While(d, inner);
    assert OwnLabels(Return(1, None)) == [] && OwnLabels(inner) == [CaseLabel(0, k)];
    assert fn[1..] == [] && OwnLabels(body) == [CaseLabel(0, k)];
    assert NodeIds(Return(1, None)) == {1} && AllLabels(Return(1, None)) == {} && DistinctIds(Return(1, None));
    assert Static(sem, Return(1, None), true, true);
    assert NodeIds(body) == {0, 1} && DistinctIds(inner) && DistinctIds(body) && Static(sem, inner, true, true);
    assert Static(sem, body, true, false);
    assert NodeIds(inner) == {0, 1} && NodeIds(fn[0]) == {0, 1} && NodeIdsSeq([]) == {} && AllLabelsSeq([]) == {};
    assert DistinctIds(inner) && DistinctIds(fn[0]) && DistinctIdsSeq([]) && StaticSeq(sem, [], false, false);
    assert Static(sem, inner, true, true) && Static(sem, fn[0], false, false);
    HiddenCaseTree(sem, e, d, k, st);
    var x, cell := Ctx(None, None, 2), Cell(4, NExpr(SetSelector(3, e)));
    assert Lower(o, fn[0], 3, x) == Code([cell], 5);
    assert LowerSeq(o, [], 5, x).cells == [];
    var C := LowerFunction(o, fn, 2).cells;
    assert C == [cell];
    var f := At(0, st, map[]);
    assert FlatStep(sem, C, 2, f).At?;
    assert FlatSteps(sem, C, 2, f, 2) == Halt(Fell(st'));
  }

  lemma HiddenCaseTree(sem: Sem, e: Expr, d: Expr, k: Expr, st: Store)
    requires sem.eval(e, st).Value? && ULong(sem.eval(e, st).v) == ULong(sem.caseValue(k))
    ensures Ends(sem, HiddenCase(e, d, k), st, Returned(None, sem.eval(e, st).st))
  {
    var fn, st' := HiddenCase(e, d, k), sem.eval(e, st).st;
    var inner := Case(0, k, Return(1, None));
    var body, rest := While(d, inner), KSeq([], KStop);
    var loop := KWhile(d, inner, KSwitch(rest));
    assert OwnLabels(Return(1, None)) == [] && OwnLabels(inner) == [CaseLabel(0, k)];
    assert fn[1..] == [] && OwnLabels(body) == [CaseLabel(0, k)];
    var s := Next(KSeq(fn, KStop), st);
    var s1, s2, s3 := Run(fn[0], rest, st), Run(inner, loop, st'), Run(Return(1, None), loop, st');
    assert Step(sem, fn, s) == s1;
    assert FindLabel(body, 0, KSwitch(rest)) == Some((inner, loop));
    assert Step(sem, fn, s1) == s2;
    assert Step(sem, fn, s2) == s3;
    assert Steps(sem, fn, s3, 1) == Done(Returned(None, st'));
    assert Steps(sem, fn, s2, 2) == Done(Returned(None, st'));
    assert Steps(sem, fn, s1, 3) == Done(Returned(None, st'));
    assert Steps(sem, fn, s, 4) == Done(Returned(None, st'));
  }
}
