/**
  The pass preserves meaning: the finished list ends exactly when the function
  does, in the same way and with the same store, and diverges exactly when it does.
 */
module Preservation {
  import opened Wrappers
  import opened Syntax
  import opened Semantics
  import opened Lowering
  import opened WellFormed
  import opened FlatLayout
  import opened Matching
  import opened Targets
  import opened Simulation

  function ProgOf(sem: Sem, o: Oracles, fn: seq<Stmt>, n: Id): Prog {
    Prog(sem, o, fn, LowerFunction(o, fn, n).cells, n, KeptSeq(o, fn) + GotoTargetsSeq(fn))
  }

  function Start(fn: seq<Stmt>, st: Store): State {
    Next(KSeq(fn, KStop), st)
  }

  function StartWit(n: Id): StateWit {
    StateWit(n + 1, Ctx(None, None, n), Frame(0, n + 1, Ctx(None, None, n), End))
  }

  lemma FunctionMatches(g: Prog, st: Store)
    requires OraclesSound(g.sem, g.o) && WellFormedFunction(g.sem, g.fn, g.exit)
    requires g.C == LowerFunction(g.o, g.fn, g.exit).cells && JumpsKeptSeq(g.o, g.may, g.fn)
    ensures GoodProg(g) && MatchS(g, Start(g.fn, st), At(0, st, map[]), StartWit(g.exit))
  {
    hide StaticSeq, JumpsKeptSeq, LowerSeq, OraclesSound, DistinctIdsSeq, Unique;
    var x := Ctx(None, None, g.exit);
    NoNodeTwice(g.o, g.fn, g.exit);
    BodyPlaced(g);
    assert MatchFrame(g, KSeq(g.fn, KStop), Frame(0, g.exit + 1, x, End), 0, x);
  }

  /** The run from `st` comes to a goto whose label lies in dropped code. */
  ghost predicate ComesToLost(sem: Sem, o: Oracles, fn: seq<Stmt>, n: Id, st: Store) {
    exists a: nat :: Lost(ProgOf(sem, o, fn, n), Steps(sem, fn, Start(fn, st), a))
  }

  /** With its switches kept, a function keeps its outcomes from every store from which no goto is lost. */
  lemma PreservedUnlessLost(sem: Sem, o: Oracles, fn: seq<Stmt>, n: Id, st: Store, out: Outcome)
    requires OraclesSound(sem, o) && WellFormedFunction(sem, fn, n) && KeepsSwitches(o, fn)
    requires !ComesToLost(sem, o, fn, n, st)
    ensures Ends(sem, fn, st, out) <==> FlatEnds(sem, LowerFunction(o, fn, n).cells, n, st, out)
  {
    hide GoodProg, MatchS, WellFormedFunction, OraclesSound, Lost;
    var g := ProgOf(sem, o, fn, n);
    var s, f, w := Start(fn, st), At(0, st, map[]), StartWit(n);
    FunctionMatches(g, st);
    if Ends(sem, fn, st, out) {
      var a: nat :| Steps(sem, fn, s, a) == Done(out);
      var m := EndsForward(g, s, f, w, a, out);
      assert FlatSteps(sem, g.C, n, f, m) == Halt(out);
    }
    if FlatEnds(sem, g.C, n, st, out) {
      var m: nat :| FlatSteps(sem, g.C, n, f, m) == Halt(out);
      var a := EndsBackward(g, s, f, w, m, out);
    }
  }

  lemma {:induction false} JumpsMore(o: Oracles, L: set<Id>, M: set<Id>, s: Stmt)
    requires JumpsKept(o, L, s) && L <= M
    ensures JumpsKept(o, M, s)
    decreases s, 1
  {
    match s
    case Label(_, b) => JumpsMore(o, L, M, b);
    case Case(_, _, b) => JumpsMore(o, L, M, b);
    case Default(_, b) => JumpsMore(o, L, M, b);
    case Block(ss) => JumpsMoreSeq(o, L, M, ss);
    case If(_, c, t, e) =>
      if !(FoldsIf(o, c, t, e) && !o.isTrue(c)) { JumpsMore(o, L, M, t); }
      if e.Some? && !(FoldsIf(o, c, t, e) && o.isTrue(c)) { JumpsMore(o, L, M, e.value); }
    case While(c, b) => if !DropsBody(o, c, b) { JumpsMore(o, L, M, b); }
    case DoWhile(b, _) => JumpsMore(o, L, M, b);
    case For(_, c, _, b) => if !DropsBody(o, c, b) { JumpsMore(o, L, M, b); }
    case Switch(_, b, _) => if ContainsLabel(b) { JumpsMore(o, L, M, b); }
    case _ =>
  }

  lemma {:induction false} JumpsMoreSeq(o: Oracles, L: set<Id>, M: set<Id>, ss: seq<Stmt>)
    requires JumpsKeptSeq(o, L, ss) && L <= M
    ensures JumpsKeptSeq(o, M, ss)
    decreases ss, 0
  {
    if ss != [] {
      JumpsMore(o, L, M, ss[0]);
      JumpsMoreSeq(o, L, M, ss[1..]);
    }
  }

  /** A function that keeps all its targets loses no goto in any run. */
  lemma NothingLost(sem: Sem, o: Oracles, fn: seq<Stmt>, n: Id, st: Store)
    requires OraclesSound(sem, o) && WellFormedFunction(sem, fn, n) && KeepsTargets(o, fn)
    ensures KeepsSwitches(o, fn) && !ComesToLost(sem, o, fn, n, st)
  {
    hide GoodProg, MatchS, WellFormedFunction, OraclesSound, Lost, KeptSeq, JumpsKeptSeq, LowerFunction;
    JumpsMoreSeq(o, KeptSeq(o, fn), KeptSeq(o, fn) + GotoTargetsSeq(fn), fn);
    var g := ProgOf(sem, o, fn, n).(may := KeptSeq(o, fn));
    FunctionMatches(g, st);
    forall a: nat ensures !Lost(ProgOf(sem, o, fn, n), Steps(sem, fn, Start(fn, st), a)) {
      NeverLost(g, Start(fn, st), At(0, st, map[]), StartWit(n), a);
      SameLost(g, ProgOf(sem, o, fn, n), Steps(sem, fn, Start(fn, st), a));
    }
  }

  lemma SameLost(g: Prog, h: Prog, s: State)
    requires g.o == h.o && g.fn == h.fn
    ensures Lost(g, s) <==> Lost(h, s)
  {
  }

  /** Main result: the same outcomes, from every store. */
  lemma LoweringPreservesMeaning(sem: Sem, o: Oracles, fn: seq<Stmt>, n: Id, st: Store, out: Outcome)
    requires OraclesSound(sem, o) && WellFormedFunction(sem, fn, n) && KeepsTargets(o, fn)
    ensures Ends(sem, fn, st, out) <==> FlatEnds(sem, LowerFunction(o, fn, n).cells, n, st, out)
  {
    NothingLost(sem, o, fn, n, st);
    PreservedUnlessLost(sem, o, fn, n, st, out);
  }

  /** The list runs for ever exactly when the function does. */
  lemma LoweringPreservesDivergence(sem: Sem, o: Oracles, fn: seq<Stmt>, n: Id, st: Store)
    requires OraclesSound(sem, o) && WellFormedFunction(sem, fn, n) && KeepsTargets(o, fn)
    ensures Diverges(sem, fn, st) <==> FlatDiverges(sem, LowerFunction(o, fn, n).cells, n, st)
  {
    hide WellFormedFunction, OraclesSound, Steps, FlatSteps, LowerFunction;
    var C := LowerFunction(o, fn, n).cells;
    if !Diverges(sem, fn, st) {
      var a: nat :| Steps(sem, fn, Next(KSeq(fn, KStop), st), a).Done?;
      var out := Steps(sem, fn, Next(KSeq(fn, KStop), st), a).out;
      LoweringPreservesMeaning(sem, o, fn, n, st, out);
      var m: nat :| FlatSteps(sem, C, n, At(0, st, map[]), m) == Halt(out);
    }
    if !FlatDiverges(sem, C, n, st) {
      var m: nat :| FlatSteps(sem, C, n, At(0, st, map[]), m).Halt?;
      var out := FlatSteps(sem, C, n, At(0, st, map[]), m).out;
      LoweringPreservesMeaning(sem, o, fn, n, st, out);
      var a: nat :| Steps(sem, fn, Next(KSeq(fn, KStop), st), a) == Done(out);
    }
  }

  // ----- No wild jump -----

  /** A step of a well-formed function never transfers control to nowhere. */
  lemma StepNotWild(g: Prog, s: State, f: Flat, w: StateWit)
    requires GoodProg(g) && MatchS(g, s, f, w) && !s.Done? && !Lost(g, s)
    ensures Step(g.sem, g.fn, s) != Done(Wild)
  {
    assert Unique(g.C);
    if s.Run? {
      hide MatchK, GoodProg, Unique, Lower;
      var x := w.x;
      match s.s
      case Goto(_, t) =>
        KeptSeqIn(g.o, g.fn);
        FindLabelSeqIn(g.fn, t, KStop);
      case Break(_) => var _, _, _ := BreakLands(g, s.k, w.w, f.pc + |Lower(g.o, s.s, w.n, x).cells|, x);
      case Continue(_) => var _, _, _ := ContinueLands(g, s.k, w.w, f.pc + |Lower(g.o, s.s, w.n, x).cells|, x);
      case Switch(e, b, _) =>
        if g.sem.eval(e, s.st).Value? {
          var v := g.sem.eval(e, s.st).v;
          if Select(g.sem, OwnLabels(b), v).Some? {
            var l := Select(g.sem, OwnLabels(b), v).value;
            SelectCaseMeans(g.sem, OwnLabels(b), v);
            SelectDefaultMeans(OwnLabels(b));
            var own :| own in OwnLabels(b) && own.id == l;
            OwnLabelsIn(b, own);
            FindLabelIn(b, l, KSwitch(s.k));
          }
        }
      case _ =>
    }
  }

  lemma {:induction false} StepsNotWild(g: Prog, s: State, f: Flat, w: StateWit, n: nat)
    requires GoodProg(g) && MatchS(g, s, f, w) && s != Done(Wild)
    requires forall i: nat :: i < n ==> !Lost(g, Steps(g.sem, g.fn, s, i))
    ensures Steps(g.sem, g.fn, s, n) != Done(Wild)
    decreases n
  {
    hide GoodProg, Runs, Tests, MatchK, Step, Lost;
    if s.Done? {
      DoneStays(g, s, n);
    } else if n > 0 {
      assert !Lost(g, Steps(g.sem, g.fn, s, 0));
      forall i: nat | i < n - 1 ensures !Lost(g, Steps(g.sem, g.fn, Step(g.sem, g.fn, s), i)) {
        assert !Lost(g, Steps(g.sem, g.fn, s, i + 1));
      }
      StepNotWild(g, s, f, w);
      var a, w' := SimStep(g, s, f, w);
      StepsNotWild(g, Step(g.sem, g.fn, s), FSteps(g, f, a), w', n - 1);
    }
  }

  /** From a store from which no goto is lost, the list never jumps to a null or unplaced target. */
  lemma WildOnlyIfLost(sem: Sem, o: Oracles, fn: seq<Stmt>, n: Id, st: Store)
    requires OraclesSound(sem, o) && WellFormedFunction(sem, fn, n) && KeepsSwitches(o, fn)
    requires !ComesToLost(sem, o, fn, n, st)
    ensures !FlatEnds(sem, LowerFunction(o, fn, n).cells, n, st, Wild)
  {
    hide GoodProg, MatchS, WellFormedFunction, OraclesSound, Lost;
    var g := ProgOf(sem, o, fn, n);
    FunctionMatches(g, st);
    PreservedUnlessLost(sem, o, fn, n, st, Wild);
    forall a: nat ensures Steps(sem, fn, Start(fn, st), a) != Done(Wild) {
      StepsNotWild(g, Start(fn, st), At(0, st, map[]), StartWit(n), a);
    }
  }

  /** The finished list never jumps to a null or unplaced target. */
  lemma NeverWild(sem: Sem, o: Oracles, fn: seq<Stmt>, n: Id, st: Store)
    requires OraclesSound(sem, o) && WellFormedFunction(sem, fn, n) && KeepsTargets(o, fn)
    ensures !FlatEnds(sem, LowerFunction(o, fn, n).cells, n, st, Wild)
  {
    NothingLost(sem, o, fn, n, st);
    WildOnlyIfLost(sem, o, fn, n, st);
  }

  // ----- Folding -----

  /** Oracles that never call an expression constant: every statement gets its general shape. */
  function NoFolding(): Oracles {
    Oracles(e => false, e => false, e => false)
  }

  /** Folded shapes and general shapes cannot be told apart by running them. */
  lemma FoldingUnobservable(sem: Sem, o: Oracles, fn: seq<Stmt>, n: Id, st: Store, out: Outcome)
    requires OraclesSound(sem, o)
    requires WellFormedFunction(sem, fn, n) && KeepsTargets(o, fn) && KeepsTargets(NoFolding(), fn)
    ensures FlatEnds(sem, LowerFunction(o, fn, n).cells, n, st, out)
       <==> FlatEnds(sem, LowerFunction(NoFolding(), fn, n).cells, n, st, out)
  {
    hide WellFormedFunction, LowerFunction, Ends, FlatEnds;
    assert OraclesSound(sem, NoFolding());
    LoweringPreservesMeaning(sem, o, fn, n, st, out);
    LoweringPreservesMeaning(sem, NoFolding(), fn, n, st, out);
  }

  // ----- What the truth oracle must satisfy -----

  /** Every well-formed function keeps its outcomes. */
  ghost predicate PreservesAll(sem: Sem, o: Oracles) {
    forall fn, n, st, out :: WellFormedFunction(sem, fn, n) && KeepsTargets(o, fn) ==>
      (Ends(sem, fn, st, out) <==> FlatEnds(sem, LowerFunction(o, fn, n).cells, n, st, out))
  }

  /** A meaningless constant can be dropped. */
  ghost predicate MeanlessSound(sem: Sem, o: Oracles) {
    forall e: Expr, st: Store :: o.isMeanless(e) ==> sem.eval(e, st).Value? && sem.eval(e, st).st == st
  }

  /** A constant's truth is known. */
  ghost predicate TruthSound(sem: Sem, o: Oracles) {
    forall e: Expr, st: Store :: o.isConst(e) && sem.eval(e, st).Value? ==> (sem.eval(e, st).v != 0 <==> o.isTrue(e))
  }

  /** `if (e) return;`, whose two outcomes differ. */
  function Probe(e: Expr): seq<Stmt> {
    [If(0, e, Return(1, None), None)]
  }

  lemma ProbeTree(sem: Sem, e: Expr, st: Store)
    requires sem.eval(e, st).Value?
    ensures var Value(v, st') := sem.eval(e, st);
            Ends(sem, Probe(e), st, if v != 0 then Returned(None, st') else Fell(st'))
  {
    var fn := Probe(e);
    var Value(v, st') := sem.eval(e, st);
    var s := Next(KSeq(fn, KStop), st);
    var s1 := Run(fn[0], KSeq([], KStop), st);
    assert fn[1..] == [];
    assert Step(sem, fn, s) == s1;
    if v != 0 {
      var s2 := Run(Return(1, None), KSeq([], KStop), st');
      assert Step(sem, fn, s1) == s2;
      assert Steps(sem, fn, s2, 1) == Done(Returned(None, st'));
      assert Steps(sem, fn, s, 3) == Done(Returned(None, st'));
    } else {
      var s2 := Next(KSeq([], KStop), st');
      assert Step(sem, fn, s1) == s2;
      assert Steps(sem, fn, s2, 2) == Done(Fell(st'));
      assert Steps(sem, fn, s1, 3) == Done(Fell(st'));
      assert Steps(sem, fn, s, 4) == Done(Fell(st'));
    }
  }

  /** On a constant condition the probe's list ends as the truth oracle says. */
  lemma ProbeList(sem: Sem, o: Oracles, e: Expr, st: Store)
    requires o.isConst(e) && sem.eval(e, st).Value? && MeanlessSound(sem, o)
    ensures FlatEnds(sem, LowerFunction(o, Probe(e), 2).cells, 2, st,
                     if o.isTrue(e) then Returned(None, sem.eval(e, st).st) else Fell(sem.eval(e, st).st))
  {
    var C, st' := LowerFunction(o, Probe(e), 2).cells, sem.eval(e, st).st;
    var pre := OptExpr(o, e, 3);
    var x := Ctx(None, None, 2);
    var tail := if o.isTrue(e) then [Cell(1, NReturn(None, Some(2)))] else [];
    assert Probe(e)[1..] == [];
    assert Lower(o, Probe(e)[0], 3, x).cells == pre.cells + tail;
    assert LowerSeq(o, [], Lower(o, Probe(e)[0], 3, x).n, x).cells == [];
    assert C == pre.cells + tail;
    var f, m := At(0, st, map[]), |pre.cells|;
    var f1 := At(m, st', map[]);
    assert FlatSteps(sem, C, 2, f, m) == f1 by {
      if m > 0 { assert FlatSteps(sem, C, 2, f, 1) == FlatStep(sem, C, 2, f); }
    }
    var out := if o.isTrue(e) then Returned(None, st') else Fell(st');
    assert FlatStep(sem, C, 2, f1) == Halt(out);
    assert FlatSteps(sem, C, 2, f1, 1) == Halt(out);
    FStepsAdd(Prog(sem, o, Probe(e), C, 2, {}), f, m, 1);
    assert FlatSteps(sem, C, 2, f, m + 1) == Halt(out);
  }

  /** A run of the tree has one outcome. */
  lemma {:induction false} OneOutcome(sem: Sem, fn: seq<Stmt>, s: State, a: nat, b: nat, p: Outcome, q: Outcome)
    requires Steps(sem, fn, s, a) == Done(p) && Steps(sem, fn, s, b) == Done(q)
    ensures p == q
    decreases a
  {
    var g := Prog(sem, NoFolding(), fn, [], 0, {});
    if s.Done? {
      DoneStays(g, s, a);
      DoneStays(g, s, b);
    } else {
      OneOutcome(sem, fn, Step(sem, fn, s), a - 1, b - 1, p, q);
    }
  }

  /** The pass is right for all functions exactly when the truth oracle is right for all constants. */
  lemma TruthOracleExact(sem: Sem, o: Oracles)
    requires MeanlessSound(sem, o)
    ensures PreservesAll(sem, o) <==> TruthSound(sem, o)
  {
    if TruthSound(sem, o) {
      forall fn, n, st, out | WellFormedFunction(sem, fn, n) && KeepsTargets(o, fn)
        ensures Ends(sem, fn, st, out) <==> FlatEnds(sem, LowerFunction(o, fn, n).cells, n, st, out)
      {
        LoweringPreservesMeaning(sem, o, fn, n, st, out);
      }
    }
    if !TruthSound(sem, o) {
      var e: Expr, st: Store :| o.isConst(e) && sem.eval(e, st).Value? && !(sem.eval(e, st).v != 0 <==> o.isTrue(e));
      WrongTruthShows(sem, o, e, st);
    }
  }

  /** A truth oracle that always answers 0 is right for all functions exactly when no constant is true. */
  lemma StubExactly(sem: Sem, o: Oracles)
    requires MeanlessSound(sem, o) && forall e: Expr :: !o.isTrue(e)
    ensures PreservesAll(sem, o) <==>
            forall e: Expr, st: Store :: o.isConst(e) && sem.eval(e, st).Value? ==> sem.eval(e, st).v == 0
  {
    hide PreservesAll, MeanlessSound;
    TruthOracleExact(sem, o);
  }

  lemma WrongTruthShows(sem: Sem, o: Oracles, e: Expr, st: Store)
    requires MeanlessSound(sem, o) && o.isConst(e) && sem.eval(e, st).Value?
    requires !(sem.eval(e, st).v != 0 <==> o.isTrue(e))
    ensures !PreservesAll(sem, o)
  {
    var fn, st' := Probe(e), sem.eval(e, st).st;
    var right := if sem.eval(e, st).v != 0 then Returned(None, st') else Fell(st');
    var wrong := if o.isTrue(e) then Returned(None, st') else Fell(st');
    ProbeTree(sem, e, st);
    ProbeList(sem, o, e, st);
    ProbeWellFormed(sem, o, e);
    if Ends(sem, fn, st, wrong) {
      var a: nat :| Steps(sem, fn, Next(KSeq(fn, KStop), st), a) == Done(right);
      var b: nat :| Steps(sem, fn, Next(KSeq(fn, KStop), st), b) == Done(wrong);
      OneOutcome(sem, fn, Next(KSeq(fn, KStop), st), a, b, right, wrong);
    }
    assert WellFormedFunction(sem, fn, 2) && KeepsTargets(o, fn) && !Ends(sem, fn, st, wrong)
           && FlatEnds(sem, LowerFunction(o, fn, 2).cells, 2, st, wrong);
  }

  lemma ProbeWellFormed(sem: Sem, o: Oracles, e: Expr)
    ensures WellFormedFunction(sem, Probe(e), 2) && KeepsTargets(o, Probe(e))
  {
    assert Probe(e)[1..] == [];
    assert NodeIds(Probe(e)[0]) == {0, 1};
    assert DistinctIds(Return(1, None)) && NodeIds(Return(1, None)) == {1} && AllLabels(Return(1, None)) == {};
    assert NodeIdsSeq([]) == {} && DistinctIdsSeq([]) && StaticSeq(sem, [], false, false);
    assert Static(sem, Return(1, None), false, false) && JumpsKept(o, {}, Return(1, None));
    assert AllLabelsSeq([]) == {} && JumpsKeptSeq(o, KeptSeq(o, Probe(e)), []);
  }
}
