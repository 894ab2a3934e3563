/**
  Every transfer of control in the finished list names a node of the list,
  exactly when no surviving jump of the tree names a label in dropped code.
 */
module Closed {
  import opened Wrappers
  import opened Syntax
  import opened Semantics
  import opened Lowering
  import opened WellFormed
  import opened FlatLayout
  import opened Simulation
  import Targets

  function OptSet(t: Option<Id>): set<Id> {
    if t.Some? then {t.value} else {}
  }

  /** Where a node can send control, other than to the exit. */
  function TargetsOf(node: Node): set<Id> {
    match node
    case NBranch(_, t, e) => OptSet(t) + OptSet(e)
    case NJump(t) => OptSet(t)
    case NLabel(t) => OptSet(t)
    case NCase(_, t) => OptSet(t)
    case NDefault(t) => OptSet(t)
    case NGoto(t) => OptSet(t)
    case NBreak(t) => OptSet(t)
    case NContinue(t) => OptSet(t)
    case _ => {}
  }

  /** Some node of the list sends control to `t`. */
  predicate Aims(C: seq<Cell>, t: Id) {
    C != [] && (t in TargetsOf(C[0].node) || Aims(C[1..], t))
  }

  ghost predicate ListClosed(C: seq<Cell>) {
    forall i, t :: 0 <= i < |C| && t in TargetsOf(C[i].node) ==> exists j :: 0 <= j < |C| && C[j].id == t
  }

  /** Every return node targets the return point. */
  ghost predicate ReturnsExit(C: seq<Cell>, exit: Id) {
    forall i :: 0 <= i < |C| && C[i].node.NReturn? ==> C[i].node.target == Some(exit)
  }

  /** What the lowered code of a statement jumps to beyond its own loops and switches. */
  function Needed(o: Oracles, s: Stmt): set<Id>
    decreases s, 1
  {
    match s
    case Label(_, b) => Needed(o, b)
    case Case(_, _, b) => Needed(o, b)
    case Default(_, b) => Needed(o, b)
    case Block(ss) => NeededSeq(o, ss)
    case If(_, c, t, e) =>
      var T := if FoldsIf(o, c, t, e) && !o.isTrue(c) then {} else Needed(o, t);
      var E := if e.None? || (FoldsIf(o, c, t, e) && o.isTrue(c)) then {} else Needed(o, e.value);
      T + E
    case Goto(_, target) => {target}
    case While(c, b) => if DropsBody(o, c, b) then {} else Needed(o, b)
    case DoWhile(b, _) => Needed(o, b)
    case For(_, c, _, b) => if DropsBody(o, c, b) then {} else Needed(o, b)
    case Switch(_, b, labels) => if ContainsLabel(b) then (set l | l in labels :: l.id) + Needed(o, b) else {}
    case _ => {}
  }

  function NeededSeq(o: Oracles, ss: seq<Stmt>): set<Id>
    decreases ss, 0
  {
    if ss == [] then {} else Needed(o, ss[0]) + NeededSeq(o, ss[1..])
  }

  lemma {:induction false} AimsAppend(a: seq<Cell>, b: seq<Cell>, t: Id)
    ensures Aims(a + b, t) <==> Aims(a, t) || Aims(b, t)
  {
    if a == [] {
      assert a + b == b;
    } else {
      AimsAppend(a[1..], b, t);
      assert (a + b)[1..] == a[1..] + b;
    }
  }

  lemma AimsTwo(c: Cell, d: Cell, t: Id)
    ensures Aims([c], t) <==> t in TargetsOf(c.node)
    ensures Aims([c, d], t) <==> t in TargetsOf(c.node) || t in TargetsOf(d.node)
  {
    assert [c][1..] == [] && [c, d][1..] == [d] && [d][1..] == [];
  }

  /** Aims and occurrences of a head, known code and two closing cells. */
  lemma Around(head: seq<Cell>, B: seq<Cell>, c: Cell, d: Cell, t: Id)
    ensures Aims(head + B + [c, d], t) <==>
            Aims(head, t) || Aims(B, t) || t in TargetsOf(c.node) || t in TargetsOf(d.node)
    ensures Count(head + B + [c, d], t) > 0 <==> Count(head, t) > 0 || Count(B, t) > 0 || c.id == t || d.id == t
    ensures Aims(head + B + [c], t) <==> Aims(head, t) || Aims(B, t) || t in TargetsOf(c.node)
    ensures Count(head + B + [c], t) > 0 <==> Count(head, t) > 0 || Count(B, t) > 0 || c.id == t
  {
    AimsTwo(c, d, t);
    CountTwo(c, d, t);
    CountAround(head, B, c, d, t);
    AimsAppend(head, B, t);
    AimsAppend(head + B, [c, d], t);
    AimsAppend(head + B, [c], t);
  }

  /** Aims and occurrences of one or two cells. */
  lemma Cells(c: Cell, d: Cell, t: Id)
    ensures Aims([c], t) <==> t in TargetsOf(c.node)
    ensures Count([c], t) > 0 <==> c.id == t
    ensures Aims([c, d], t) <==> t in TargetsOf(c.node) || t in TargetsOf(d.node)
    ensures Count([c, d], t) > 0 <==> c.id == t || d.id == t
  {
    AimsTwo(c, d, t);
    CountTwo(c, d, t);
  }

  lemma FirstCounts(B: seq<Cell>, t: Id)
    ensures t in OptSet(First(B)) ==> Count(B, t) > 0
  {
  }

  lemma NoAims(o: Oracles, e: Expr, n: Id, t: Id)
    ensures !Aims(OptExpr(o, e, n).cells, t)
  {
    Cells(Cell(n, NExpr(Plain(e))), Cell(n, NPesudo), t);
  }

  lemma {:induction false} NoAimsDec(inits: seq<Option<Expr>>, n: Id, t: Id)
    ensures !Aims(LowerDec(inits, n).cells, t)
  {
    if inits != [] {
      if inits[0].None? {
        NoAimsDec(inits[1..], n, t);
      } else {
        NoAimsDec(inits[1..], n + 1, t);
        var c := Cell(n, NExpr(Plain(inits[0].value)));
        Cells(c, c, t);
        AimsAppend([c], LowerDec(inits[1..], n + 1).cells, t);
      }
    }
  }

  /** What code aims at is placed in it, or needed from outside, and whatever is needed is aimed at. */
  ghost predicate Fits(cells: seq<Cell>, needed: set<Id>, outer: set<Id>, t: Id) {
    && (Aims(cells, t) ==> Count(cells, t) > 0 || t in needed || t in outer)
    && (t in needed ==> Aims(cells, t))
  }

  lemma JoinIfFits(id: Id, c: Expr, T: seq<Cell>, F: seq<Cell>, n: Id, needT: set<Id>,
                   needF: set<Id>, outer: set<Id>, t: Id)
    requires Fits(T, needT, outer, t) && Fits(F, needF, outer, t)
    ensures Fits(JoinIf(id, c, T, F, n).cells, needT + needF, outer, t)
  {
    var tail, jump := Cell(n, NPesudo), Cell(n + 1, NJump(Some(n)));
    FirstCounts(T, t);
    FirstCounts(F, t);
    if T == [] && F == [] {
      Cells(Cell(n, NExpr(Plain(c))), tail, t);
    } else if T == [] {
      var head := Cell(id, NBranch(Plain(c), Some(n + 1), First(F)));
      Cells(head, jump, t);
      Around([head, jump], F, tail, tail, t);
    } else if F == [] {
      var head := Cell(id, NBranch(Plain(c), First(T), Some(n)));
      Cells(head, jump, t);
      Around([head], T, tail, tail, t);
    } else {
      var head := Cell(id, NBranch(Plain(c), First(T), First(F)));
      Cells(head, jump, t);
      Around([head], T, jump, jump, t);
      Around([head] + T + [jump], F, tail, tail, t);
    }
  }

  /** A loop head that aims only at the loop's own code and break point. */
  ghost predicate HeadFits(head: seq<Cell>, B: seq<Cell>, top: Id, bp: Id, t: Id) {
    head != [] && head[0].id == top && (Aims(head, t) ==> Count(B, t) > 0 || t == bp)
  }

  lemma TestedHeadFits(top: Id, branch: Id, c: Expr, B: seq<Cell>, bp: Id, t: Id)
    ensures HeadFits(TestedHead(top, branch, c, B, bp), B, top, bp, t)
  {
    var head := TestedHead(top, branch, c, B, bp);
    Cells(head[0], head[1], t);
    FirstCounts(B, t);
  }

  lemma EndlessHeadFits(o: Oracles, top: Id, c: Expr, n: Id, B: seq<Cell>, bp: Id, t: Id)
    ensures HeadFits([Cell(top, NPesudo)] + OptExpr(o, c, n).cells, B, top, bp, t)
  {
    Cells(Cell(top, NPesudo), Cell(top, NPesudo), t);
    NoAims(o, c, n, t);
    AimsAppend([Cell(top, NPesudo)], OptExpr(o, c, n).cells, t);
  }

  lemma HeadCounts(head: seq<Cell>, top: Id)
    requires head != [] && head[0].id == top
    ensures Count(head, top) > 0
  {
  }

  lemma CloseLoopFits(head: seq<Cell>, B: seq<Cell>, top: Id, bp: Id, n: Id, need: set<Id>, t: Id)
    requires HeadFits(head, B, top, bp, t) && Fits(B, need, {bp, top}, t)
    ensures Fits(CloseLoop(head, B, top, bp, n).cells, need, {}, t)
  {
    var c, d := Cell(n, NJump(Some(top))), Cell(bp, NPesudo);
    HeadCounts(head, top);
    Around(head, B, c, d, t);
  }

  lemma FinishForFits(o: Oracles, head: seq<Cell>, B: Code, inc: Expr, top: Id, cp: Id, bp: Id, need: set<Id>, t: Id)
    requires HeadFits(head, B.cells, top, bp, t) && Fits(B.cells, need, {bp, cp}, t)
    ensures Fits(FinishFor(o, head, B, inc, top, cp, bp).cells, need, {}, t)
  {
    var post := OptExpr(o, inc, B.n);
    var c := Cell(cp, NPesudo);
    NoAims(o, inc, B.n, t);
    Around(head, B.cells, c, c, t);
    HeadCounts(head, top);
    Around(head + B.cells + [c], post.cells, Cell(post.n, NJump(Some(top))), Cell(bp, NPesudo), t);
  }

  lemma FinishDoFits(o: Oracles, c: Expr, folds: bool, B: Code, n: Id, need: set<Id>, t: Id)
    requires Fits(B.cells, need, {n + 1, n}, t)
    ensures Fits(FinishDo(o, c, folds, B, n).cells, need, {}, t)
  {
    var head, cp, bp := Cell(B.n, NPesudo), Cell(n, NPesudo), Cell(n + 1, NPesudo);
    Cells(head, cp, t);
    Cells(cp, bp, t);
    if folds && !o.isTrue(c) {
      NoAims(o, c, B.n, t);
      AimsAppend(B.cells, [cp], t);
      CountAppend(B.cells, [cp], t);
      Around(B.cells + [cp], OptExpr(o, c, B.n).cells, bp, bp, t);
    } else {
      Around([head], B.cells, cp, cp, t);
      if folds {
        NoAims(o, c, B.n + 1, t);
        var pre := OptExpr(o, c, B.n + 1);
        Around([head] + B.cells + [cp], pre.cells, Cell(pre.n, NJump(Some(B.n))), bp, t);
      } else {
        var branch := Cell(B.n + 1, NBranch(Plain(c), Some(B.n), Some(n + 1)));
        Cells(branch, bp, t);
        AimsAppend([head] + B.cells + [cp], [branch, bp], t);
        CountAppend([head] + B.cells + [cp], [branch, bp], t);
      }
    }
  }

  lemma {:induction false} ChainAims(labels: seq<CaseLabel>, sym: Id, dflt: Id, n: Id, t: Id)
    ensures var cells := Chain(labels, sym, dflt, n).cells;
            && (Aims(cells, t) ==>
                Count(cells, t) > 0 || t == dflt || exists l :: l in labels && l.CaseLabel? && l.id == t)
            && (t == dflt || (exists l :: l in labels && l.CaseLabel? && l.id == t) ==> Aims(cells, t))
  {
    if labels == [] {
      Cells(Cell(n, NJump(Some(dflt))), Cell(n, NPesudo), t);
    } else {
      assert forall l :: l in labels <==> l == labels[0] || l in labels[1..];
      if labels[0].DefaultLabel? {
        ChainAims(labels[1..], sym, dflt, n, t);
      } else {
        ChainAims(labels[1..], sym, dflt, n + 2, t);
        var r := Chain(labels[1..], sym, dflt, n + 2).cells;
        var c := Cell(n + 1, NBranch(SelectorIs(sym, labels[0].e), Some(n), First(r)));
        var d := Cell(n, NJump(Some(labels[0].id)));
        Cells(c, d, t);
        FirstCounts(r, t);
        AimsAppend([c, d], r, t);
        CountAppend([c, d], r, t);
      }
    }
  }

  lemma SwitchFits(sem: Sem, o: Oracles, e: Expr, b: Stmt, labels: seq<CaseLabel>, n: Id, x: Ctx, t: Id)
    requires ContainsLabel(b) && LabelsAgree(sem, labels, OwnLabels(b))
    requires var m := Chain(labels, n, DefaultTarget(labels, n + 2), n + 3).n;
             Fits(Lower(o, b, m, Ctx(Some(n + 2), x.cp, x.rp)).cells, Needed(o, b), {n + 2} + OptSet(x.cp), t)
    ensures Fits(Lower(o, Switch(e, b, labels), n, x).cells, Needed(o, Switch(e, b, labels)), OptSet(x.cp), t)
  {
    hide LabelsAgree, Lower, Chain, OwnLabels, ContainsLabel, DefaultTarget;
    var dflt := DefaultTarget(labels, n + 2);
    var assign, chain := Cell(n + 1, NExpr(SetSelector(n, e))), Chain(labels, n, dflt, n + 3);
    var B, bp := Lower(o, b, chain.n, Ctx(Some(n + 2), x.cp, x.rp)).cells, Cell(n + 2, NPesudo);
    DefaultAim(sem, labels, OwnLabels(b), n + 2, t);
    ChainAims(labels, n, dflt, n + 3, t);
    Cells(assign, bp, t);
    AimsAppend([assign], chain.cells, t);
    CountAppend([assign], chain.cells, t);
    Around([assign] + chain.cells, B, bp, bp, t);
    SwitchCells(o, e, b, labels, n, x);
  }

  lemma SwitchCells(o: Oracles, e: Expr, b: Stmt, labels: seq<CaseLabel>, n: Id, x: Ctx)
    requires ContainsLabel(b)
    ensures var chain := Chain(labels, n, DefaultTarget(labels, n + 2), n + 3);
            var B := Lower(o, b, chain.n, Ctx(Some(n + 2), x.cp, x.rp)).cells;
            Lower(o, Switch(e, b, labels), n, x).cells
            == [Cell(n + 1, NExpr(SetSelector(n, e)))] + chain.cells + B + [Cell(n + 2, NPesudo)]
  {
  }

  /** The default jump goes to the list's default label, or to the break point if there is none. */
  lemma DefaultAim(sem: Sem, labels: seq<CaseLabel>, own: seq<CaseLabel>, bp: Id, t: Id)
    requires LabelsAgree(sem, labels, own)
    ensures t == DefaultTarget(labels, bp) ==> t == bp || exists l :: l in labels && l.id == t
    ensures (exists l :: l in labels && l.DefaultLabel? && l.id == t) ==> t == DefaultTarget(labels, bp)
  {
    DefaultTargetMeans(sem, labels, bp);
    SelectDefaultMeans(labels);
    if l: CaseLabel :| l in labels && l.DefaultLabel? && l.id == t {
      var d :| d in labels && d.DefaultLabel? && Some(d.id) == SelectDefault(labels);
      var i :| 0 <= i < |labels| && labels[i] == l;
      var j :| 0 <= j < |labels| && labels[j] == d;
      assert i < j ==> !Clash(sem, labels[i], labels[j]);
      assert j < i ==> !Clash(sem, labels[j], labels[i]);
    }
  }

  function Outer(x: Ctx): set<Id> {
    OptSet(x.bp) + OptSet(x.cp)
  }

  lemma {:induction false} LowerFits(sem: Sem, o: Oracles, s: Stmt, n: Id, x: Ctx, brk: bool, cnt: bool, t: Id)
    requires Static(sem, s, brk, cnt)
    ensures Fits(Lower(o, s, n, x).cells, Needed(o, s), Outer(x), t)
    decreases s, 1
  {
    hide Aims, Count;
    match s
    case Dec(inits) => NoAimsDec(inits, n, t);
    case Label(_, _) => LabelFits(sem, o, s, n, x, brk, cnt, t);
    case Case(_, _, _) => LabelFits(sem, o, s, n, x, brk, cnt, t);
    case Default(_, _) => LabelFits(sem, o, s, n, x, brk, cnt, t);
    case Block(ss) => LowerSeqFits(sem, o, ss, n, x, brk, cnt, t);
    case If(_, _, _, _) => IfFits(sem, o, s, n, x, brk, cnt, t);
    case While(_, _) => LoopFits(sem, o, s, n, x, t);
    case DoWhile(b, c) =>
      var y := Ctx(Some(n + 1), Some(n), x.rp);
      LowerFits(sem, o, b, n + 2, y, true, true, t);
      FinishDoFits(o, c, FoldsLoop(o, c, b), Lower(o, b, n + 2, y), n, Needed(o, b), t);
    case For(_, _, _, _) => LoopFits(sem, o, s, n, x, t);
    case Switch(e, b, labels) =>
      if ContainsLabel(b) {
        var m := Chain(labels, n, DefaultTarget(labels, n + 2), n + 3).n;
        LowerFits(sem, o, b, m, Ctx(Some(n + 2), x.cp, x.rp), true, cnt, t);
        SwitchFits(sem, o, e, b, labels, n, x, t);
      } else {
        Cells(Lower(o, s, n, x).cells[0], Cell(n, NPesudo), t);
      }
    case _ => Cells(Lower(o, s, n, x).cells[0], Cell(n, NPesudo), t);
  }

  lemma {:induction false} LabelFits(sem: Sem, o: Oracles, s: Stmt, n: Id, x: Ctx, brk: bool, cnt: bool, t: Id)
    requires Static(sem, s, brk, cnt) && (s.Label? || s.Case? || s.Default?)
    ensures Fits(Lower(o, s, n, x).cells, Needed(o, s), Outer(x), t)
    decreases s, 0
  {
    hide Aims, Count;
    LowerFits(sem, o, s.body, n, x, brk, cnt, t);
    var c, B := Lower(o, s, n, x).cells[0], Lower(o, s.body, n, x).cells;
    assert Lower(o, s, n, x).cells == [c] + B;
    Cells(c, c, t);
    FirstCounts(B, t);
    AimsAppend([c], B, t);
    CountAppend([c], B, t);
  }

  lemma {:induction false} IfFits(sem: Sem, o: Oracles, s: Stmt, n: Id, x: Ctx, brk: bool, cnt: bool, t: Id)
    requires Static(sem, s, brk, cnt) && s.If?
    ensures Fits(Lower(o, s, n, x).cells, Needed(o, s), Outer(x), t)
    decreases s, 0
  {
    hide Aims, Count;
    var If(id, c, thn, els) := s;
    if FoldsIf(o, c, thn, els) {
      var pre := OptExpr(o, c, n);
      NoAims(o, c, n, t);
      if o.isTrue(c) {
        LowerFits(sem, o, thn, pre.n, x, brk, cnt, t);
        AimsAppend(pre.cells, Lower(o, thn, pre.n, x).cells, t);
        CountAppend(pre.cells, Lower(o, thn, pre.n, x).cells, t);
      } else if els.Some? {
        LowerFits(sem, o, els.value, pre.n, x, brk, cnt, t);
        AimsAppend(pre.cells, Lower(o, els.value, pre.n, x).cells, t);
        CountAppend(pre.cells, Lower(o, els.value, pre.n, x).cells, t);
      }
    } else {
      var T := Lower(o, thn, n, x);
      var F := if els.Some? then Lower(o, els.value, T.n, x) else Code([], T.n);
      LowerFits(sem, o, thn, n, x, brk, cnt, t);
      if els.Some? { LowerFits(sem, o, els.value, T.n, x, brk, cnt, t); }
      NothingAims(t);
      JoinIfFits(id, c, T.cells, F.cells, F.n, Needed(o, thn),
                 if els.Some? then Needed(o, els.value) else {}, Outer(x), t);
    }
  }

  lemma NothingAims(t: Id)
    ensures !Aims([], t)
  {
  }

  lemma {:induction false} LoopFits(sem: Sem, o: Oracles, s: Stmt, n: Id, x: Ctx, t: Id)
    requires Static(sem, s, false, false) && (s.While? || s.For?)
    ensures Fits(Lower(o, s, n, x).cells, Needed(o, s), Outer(x), t)
    decreases s, 0
  {
    hide Aims, Count;
    match s
    case While(c, b) =>
      if DropsBody(o, c, b) {
        NoAims(o, c, n, t);
      } else if FoldsLoop(o, c, b) {
        var pre := OptExpr(o, c, n + 1);
        var y := Ctx(Some(pre.n), Some(n), x.rp);
        LowerFits(sem, o, b, pre.n + 1, y, true, true, t);
        var B := Lower(o, b, pre.n + 1, y);
        EndlessHeadFits(o, n, c, n + 1, B.cells, pre.n, t);
        CloseLoopFits([Cell(n, NPesudo)] + pre.cells, B.cells, n, pre.n, B.n, Needed(o, b), t);
      } else {
        var y := Ctx(Some(n + 2), Some(n), x.rp);
        LowerFits(sem, o, b, n + 3, y, true, true, t);
        var B := Lower(o, b, n + 3, y);
        TestedHeadFits(n, n + 1, c, B.cells, n + 2, t);
        CloseLoopFits(TestedHead(n, n + 1, c, B.cells, n + 2), B.cells, n, n + 2, B.n, Needed(o, b), t);
      }
    case For(i, c, inc, b) =>
      var I := OptExpr(o, i, n);
      NoAims(o, i, n, t);
      if DropsBody(o, c, b) {
        NoAims(o, c, I.n, t);
      } else if FoldsLoop(o, c, b) {
        var pre := OptExpr(o, c, I.n + 2);
        var y := Ctx(Some(pre.n), Some(I.n + 1), x.rp);
        LowerFits(sem, o, b, pre.n + 1, y, true, true, t);
        var B := Lower(o, b, pre.n + 1, y);
        EndlessHeadFits(o, I.n, c, I.n + 2, B.cells, pre.n, t);
        FinishForFits(o, [Cell(I.n, NPesudo)] + pre.cells, B, inc, I.n, I.n + 1, pre.n, Needed(o, b), t);
      } else {
        var y := Ctx(Some(I.n + 3), Some(I.n + 1), x.rp);
        LowerFits(sem, o, b, I.n + 4, y, true, true, t);
        var B := Lower(o, b, I.n + 4, y);
        TestedHeadFits(I.n, I.n + 2, c, B.cells, I.n + 3, t);
        FinishForFits(o, TestedHead(I.n, I.n + 2, c, B.cells, I.n + 3), B, inc, I.n, I.n + 1, I.n + 3, Needed(o, b), t);
      }
      AimsAppend(I.cells, LowerForTest(o, c, inc, b, I.n, x).cells, t);
      CountAppend(I.cells, LowerForTest(o, c, inc, b, I.n, x).cells, t);
  }

  lemma {:induction false} LowerSeqFits(sem: Sem, o: Oracles, ss: seq<Stmt>, n: Id, x: Ctx, brk: bool, cnt: bool, t: Id)
    requires StaticSeq(sem, ss, brk, cnt)
    ensures Fits(LowerSeq(o, ss, n, x).cells, NeededSeq(o, ss), Outer(x), t)
    decreases ss, 0
  {
    if ss == [] {
      NothingAims(t);
    } else {
      hide Aims, Count;
      var a := Lower(o, ss[0], n, x);
      LowerFits(sem, o, ss[0], n, x, brk, cnt, t);
      LowerSeqFits(sem, o, ss[1..], a.n, x, brk, cnt, t);
      AimsAppend(a.cells, LowerSeq(o, ss[1..], a.n, x).cells, t);
      CountAppend(a.cells, LowerSeq(o, ss[1..], a.n, x).cells, t);
    }
  }

  // ----- Which labels are placed -----

  lemma {:induction false} NodesHoldLabels(s: Stmt)
    ensures AllLabels(s) <= NodeIds(s)
    decreases s, 1
  {
    match s
    case Label(_, b) => NodesHoldLabels(b);
    case Case(_, _, b) => NodesHoldLabels(b);
    case Default(_, b) => NodesHoldLabels(b);
    case Block(ss) => NodesHoldLabelsSeq(ss);
    case If(_, _, t, e) =>
      NodesHoldLabels(t);
      if e.Some? { NodesHoldLabels(e.value); }
    case While(_, b) => NodesHoldLabels(b);
    case DoWhile(b, _) => NodesHoldLabels(b);
    case For(_, _, _, b) => NodesHoldLabels(b);
    case Switch(_, b, _) => NodesHoldLabels(b);
    case _ =>
  }

  lemma {:induction false} NodesHoldLabelsSeq(ss: seq<Stmt>)
    ensures AllLabelsSeq(ss) <= NodeIdsSeq(ss)
    decreases ss, 0
  {
    if ss != [] {
      NodesHoldLabels(ss[0]);
      NodesHoldLabelsSeq(ss[1..]);
    }
  }

  /** A label of the tree is in the list exactly if it is kept. */
  ghost predicate Tells(cells: seq<Cell>, kept: set<Id>, all: set<Id>, t: Id) {
    && (t in kept ==> Count(cells, t) > 0)
    && (t in all && t !in kept ==> Count(cells, t) == 0)
  }

  lemma {:induction false} LabelsPlaced(o: Oracles, s: Stmt, n: Id, x: Ctx, t: Id)
    requires DistinctIds(s) && Below(NodeIds(s), n)
    ensures Tells(Lower(o, s, n, x).cells, Kept(o, s), AllLabels(s), t)
    decreases s, 1
  {
    Targets.KeptIn(o, s);
    NodesHoldLabels(s);
    hide Count, Below;
    match s
    case Label(_, _) => LabelPlaced(o, s, n, x, t);
    case Case(_, _, _) => LabelPlaced(o, s, n, x, t);
    case Default(_, _) => LabelPlaced(o, s, n, x, t);
    case Block(ss) => LabelsPlacedSeq(o, ss, n, x, t);
    case If(_, _, _, _) => IfPlaced(o, s, n, x, t);
    case While(_, _) => LoopPlaced(o, s, n, x, t);
    case DoWhile(_, _) => LoopPlaced(o, s, n, x, t);
    case For(_, _, _, _) => LoopPlaced(o, s, n, x, t);
    case Switch(_, _, _) => SwitchPlaced(o, s, n, x, t);
    case _ =>
  }

  lemma {:induction false} LabelPlaced(o: Oracles, s: Stmt, n: Id, x: Ctx, t: Id)
    requires DistinctIds(s) && Below(NodeIds(s), n) && (s.Label? || s.Case? || s.Default?)
    ensures Tells(Lower(o, s, n, x).cells, Kept(o, s), AllLabels(s), t)
    decreases s, 0
  {
    hide Count;
    var c, B := Lower(o, s, n, x).cells[0], Lower(o, s.body, n, x).cells;
    assert NodeIds(s.body) <= NodeIds(s);
    LabelsPlaced(o, s.body, n, x, t);
    NodesHoldLabels(s.body);
    assert Lower(o, s, n, x).cells == [c] + B;
    CountTwo(c, c, t);
    CountAppend([c], B, t);
  }

  lemma {:induction false} IfPlaced(o: Oracles, s: Stmt, n: Id, x: Ctx, t: Id)
    requires DistinctIds(s) && Below(NodeIds(s), n) && s.If?
    ensures Tells(Lower(o, s, n, x).cells, Kept(o, s), AllLabels(s), t)
    decreases s, 0
  {
    hide Count;
    var If(id, c, thn, els) := s;
    assert id in NodeIds(s) && NodeIds(thn) <= NodeIds(s) && (els.Some? ==> NodeIds(els.value) <= NodeIds(s));
    NodesHoldLabels(thn);
    Targets.KeptIn(o, thn);
    if els.Some? {
      NodesHoldLabels(els.value);
      Targets.KeptIn(o, els.value);
    }
    if t in AllLabels(s) {
      assert t < n && t != id;
      if FoldsIf(o, c, thn, els) {
        var pre := OptExpr(o, c, n);
        OptExprIds(o, c, n, t);
        if o.isTrue(c) {
          LabelsPlaced(o, thn, pre.n, x, t);
          LowerIds(o, thn, pre.n, x, t);
          CountAppend(pre.cells, Lower(o, thn, pre.n, x).cells, t);
        } else if els.Some? {
          LabelsPlaced(o, els.value, pre.n, x, t);
          LowerIds(o, els.value, pre.n, x, t);
          CountAppend(pre.cells, Lower(o, els.value, pre.n, x).cells, t);
        }
      } else {
        var T := Lower(o, thn, n, x);
        var F := if els.Some? then Lower(o, els.value, T.n, x) else Code([], T.n);
        LabelsPlaced(o, thn, n, x, t);
        LowerIds(o, thn, n, x, t);
        if els.Some? {
          LabelsPlaced(o, els.value, T.n, x, t);
          LowerIds(o, els.value, T.n, x, t);
        }
        NothingCounts(t);
        JoinIfCount(id, c, T.cells, F.cells, F.n, t);
      }
    }
  }

  lemma NothingCounts(t: Id)
    ensures Count([], t) == 0
  {
  }

  /** A conditional's own nodes, and those of its branches. */
  lemma JoinIfCount(id: Id, c: Expr, T: seq<Cell>, F: seq<Cell>, n: Id, t: Id)
    requires t < n && t != id
    ensures Count(JoinIf(id, c, T, F, n).cells, t) == Count(T, t) + Count(F, t)
  {
    var tail, jump := Cell(n, NPesudo), Cell(n + 1, NJump(Some(n)));
    if T == [] && F == [] {
      CountTwo(Cell(n, NExpr(Plain(c))), tail, t);
    } else if T == [] {
      var head := Cell(id, NBranch(Plain(c), Some(n + 1), First(F)));
      CountTwo(head, jump, t);
      CountTwo(tail, tail, t);
      CountAround([head, jump], F, tail, tail, t);
    } else if F == [] {
      var head := Cell(id, NBranch(Plain(c), First(T), Some(n)));
      CountTwo(head, tail, t);
      CountTwo(tail, tail, t);
      CountAround([head], T, tail, tail, t);
    } else {
      var head := Cell(id, NBranch(Plain(c), First(T), First(F)));
      CountTwo(head, jump, t);
      CountTwo(jump, tail, t);
      CountTwo(tail, tail, t);
      CountAround([head], T, jump, jump, t);
      CountAround([head] + T + [jump], F, tail, tail, t);
    }
  }

  lemma {:induction false} LoopPlaced(o: Oracles, s: Stmt, n: Id, x: Ctx, t: Id)
    requires DistinctIds(s) && Below(NodeIds(s), n) && (s.While? || s.DoWhile? || s.For?)
    ensures Tells(Lower(o, s, n, x).cells, Kept(o, s), AllLabels(s), t)
    decreases s, 0
  {
    hide Count;
    NodesHoldLabels(s);
    Targets.KeptIn(o, s);
    if t in AllLabels(s) {
      assert t < n;
      match s
      case While(c, b) =>
        if DropsBody(o, c, b) {
          OptExprIds(o, c, n, t);
        } else if FoldsLoop(o, c, b) {
          var pre := OptExpr(o, c, n + 1);
          var y := Ctx(Some(pre.n), Some(n), x.rp);
          LabelsPlaced(o, b, pre.n + 1, y, t);
          var B := Lower(o, b, pre.n + 1, y);
          LowerIds(o, b, pre.n + 1, y, t);
          OptExprIds(o, c, n + 1, t);
          CountTwo(Cell(n, NPesudo), Cell(n, NPesudo), t);
          CountAppend([Cell(n, NPesudo)], pre.cells, t);
          CloseLoopIds([Cell(n, NPesudo)] + pre.cells, B.cells, n, pre.n, B.n, t);
        } else {
          var y := Ctx(Some(n + 2), Some(n), x.rp);
          LabelsPlaced(o, b, n + 3, y, t);
          var B := Lower(o, b, n + 3, y);
          LowerIds(o, b, n + 3, y, t);
          var head := TestedHead(n, n + 1, c, B.cells, n + 2);
          CountTwo(head[0], head[1], t);
          CloseLoopIds(head, B.cells, n, n + 2, B.n, t);
        }
      case DoWhile(b, c) =>
        var y := Ctx(Some(n + 1), Some(n), x.rp);
        LabelsPlaced(o, b, n + 2, y, t);
        LowerIds(o, b, n + 2, y, t);
        FinishDoCount(o, c, FoldsLoop(o, c, b), Lower(o, b, n + 2, y), n, t);
      case For(i, c, inc, b) =>
        var I := OptExpr(o, i, n);
        OptExprIds(o, i, n, t);
        ForPlaced(o, c, inc, b, I.n, x, t);
        CountAppend(I.cells, LowerForTest(o, c, inc, b, I.n, x).cells, t);
    }
  }

  lemma FinishDoCount(o: Oracles, c: Expr, folds: bool, B: Code, n: Id, t: Id)
    requires t < n <= B.n
    ensures Count(FinishDo(o, c, folds, B, n).cells, t) == Count(B.cells, t)
  {
    var head, cp, bp := Cell(B.n, NPesudo), Cell(n, NPesudo), Cell(n + 1, NPesudo);
    CountTwo(head, cp, t);
    CountTwo(cp, bp, t);
    CountTwo(bp, bp, t);
    if folds && !o.isTrue(c) {
      OptExprIds(o, c, B.n, t);
      CountAppend(B.cells, [cp], t);
      CountAround(B.cells + [cp], OptExpr(o, c, B.n).cells, bp, bp, t);
    } else {
      CountAround([head], B.cells, cp, cp, t);
      if folds {
        OptExprIds(o, c, B.n + 1, t);
        var pre := OptExpr(o, c, B.n + 1);
        CloseLoopIds([head] + B.cells + [cp], pre.cells, B.n, n + 1, pre.n, t);
      } else {
        var branch := Cell(B.n + 1, NBranch(Plain(c), Some(B.n), Some(n + 1)));
        CountTwo(branch, bp, t);
        CountAppend([head] + B.cells + [cp], [branch, bp], t);
      }
    }
  }

  lemma FinishForCount(o: Oracles, head: seq<Cell>, B: Code, inc: Expr, top: Id, cp: Id, bp: Id, t: Id)
    requires t < B.n && t < cp && t < bp && Count(head, t) == 0
    ensures Count(FinishFor(o, head, B, inc, top, cp, bp).cells, t) == Count(B.cells, t)
  {
    OptExprIds(o, inc, B.n, t);
    var post := OptExpr(o, inc, B.n);
    var c := Cell(cp, NPesudo);
    CountTwo(c, c, t);
    CountAround(head, B.cells, c, c, t);
    CloseLoopIds(head + B.cells + [c], post.cells, top, bp, post.n, t);
  }

  lemma {:induction false} ForPlaced(o: Oracles, c: Expr, inc: Expr, b: Stmt, n: Id, x: Ctx, t: Id)
    requires DistinctIds(b) && Below(NodeIds(b), n) && t < n
    ensures Tells(LowerForTest(o, c, inc, b, n, x).cells,
                  if DropsBody(o, c, b) then {} else Kept(o, b), AllLabels(b), t)
    decreases b, 2
  {
    hide Count;
    if DropsBody(o, c, b) {
      OptExprIds(o, c, n, t);
    } else if FoldsLoop(o, c, b) {
      var pre := OptExpr(o, c, n + 2);
      var y := Ctx(Some(pre.n), Some(n + 1), x.rp);
      LabelsPlaced(o, b, pre.n + 1, y, t);
      LowerIds(o, b, pre.n + 1, y, t);
      OptExprIds(o, c, n + 2, t);
      CountTwo(Cell(n, NPesudo), Cell(n, NPesudo), t);
      CountAppend([Cell(n, NPesudo)], pre.cells, t);
      FinishForCount(o, [Cell(n, NPesudo)] + pre.cells, Lower(o, b, pre.n + 1, y), inc, n, n + 1, pre.n, t);
    } else {
      var y := Ctx(Some(n + 3), Some(n + 1), x.rp);
      LabelsPlaced(o, b, n + 4, y, t);
      LowerIds(o, b, n + 4, y, t);
      var B := Lower(o, b, n + 4, y);
      var head := TestedHead(n, n + 2, c, B.cells, n + 3);
      CountTwo(head[0], head[1], t);
      FinishForCount(o, head, B, inc, n, n + 1, n + 3, t);
    }
  }

  lemma {:induction false} SwitchPlaced(o: Oracles, s: Stmt, n: Id, x: Ctx, t: Id)
    requires DistinctIds(s) && Below(NodeIds(s), n) && s.Switch?
    ensures Tells(Lower(o, s, n, x).cells, Kept(o, s), AllLabels(s), t)
    decreases s, 0
  {
    hide Count;
    NodesHoldLabels(s);
    Targets.KeptIn(o, s);
    var Switch(e, b, labels) := s;
    var assign, bp := Cell(n + 1, NExpr(SetSelector(n, e))), Cell(n + 2, NPesudo);
    CountTwo(assign, bp, t);
    CountTwo(bp, bp, t);
    if t in AllLabels(s) && ContainsLabel(b) {
      assert t < n;
      var dflt := DefaultTarget(labels, n + 2);
      var chain := Chain(labels, n, dflt, n + 3);
      var y := Ctx(Some(n + 2), x.cp, x.rp);
      ChainIds(labels, n, dflt, n + 3, t);
      LabelsPlaced(o, b, chain.n, y, t);
      SwitchCells(o, e, b, labels, n, x);
      CountAppend([assign], chain.cells, t);
      CountAround([assign] + chain.cells, Lower(o, b, chain.n, y).cells, bp, bp, t);
    }
  }

  lemma {:induction false} LabelsPlacedSeq(o: Oracles, ss: seq<Stmt>, n: Id, x: Ctx, t: Id)
    requires DistinctIdsSeq(ss) && Below(NodeIdsSeq(ss), n)
    ensures Tells(LowerSeq(o, ss, n, x).cells, KeptSeq(o, ss), AllLabelsSeq(ss), t)
    decreases ss, 0
  {
    if ss != [] {
      hide Count;
      assert NodeIds(ss[0]) <= NodeIdsSeq(ss) && NodeIdsSeq(ss[1..]) <= NodeIdsSeq(ss);
      var a := Lower(o, ss[0], n, x);
      var b := LowerSeq(o, ss[1..], a.n, x);
      LowerIds(o, ss[0], n, x, t);
      LabelsPlaced(o, ss[0], n, x, t);
      LowerSeqIds(o, ss[1..], a.n, x, t);
      LabelsPlacedSeq(o, ss[1..], a.n, x, t);
      NodesHoldLabels(ss[0]);
      NodesHoldLabelsSeq(ss[1..]);
      Targets.KeptIn(o, ss[0]);
      Targets.KeptSeqIn(o, ss[1..]);
      CountAppend(a.cells, b.cells, t);
    }
  }

  // ----- Which lists are closed -----

  /** No dropped switch body holds a case or default label. */
  predicate NoLostSwitch(o: Oracles, s: Stmt)
    decreases s, 1
  {
    match s
    case Label(_, b) => NoLostSwitch(o, b)
    case Case(_, _, b) => NoLostSwitch(o, b)
    case Default(_, b) => NoLostSwitch(o, b)
    case Block(ss) => NoLostSwitchSeq(o, ss)
    case If(_, c, t, e) =>
      && ((FoldsIf(o, c, t, e) && !o.isTrue(c)) || NoLostSwitch(o, t))
      && (e.None? || (FoldsIf(o, c, t, e) && o.isTrue(c)) || NoLostSwitch(o, e.value))
    case While(c, b) => DropsBody(o, c, b) || NoLostSwitch(o, b)
    case DoWhile(b, _) => NoLostSwitch(o, b)
    case For(_, c, _, b) => DropsBody(o, c, b) || NoLostSwitch(o, b)
    case Switch(_, b, labels) => if ContainsLabel(b) then NoLostSwitch(o, b) else labels == []
    case _ => true
  }

  predicate NoLostSwitchSeq(o: Oracles, ss: seq<Stmt>)
    decreases ss, 0
  {
    ss != [] ==> NoLostSwitch(o, ss[0]) && NoLostSwitchSeq(o, ss[1..])
  }

  /** Each needed label is one of `L`, which agrees with what the statement keeps. */
  lemma {:induction false} NeededMeansKept(sem: Sem, o: Oracles, L: set<Id>, s: Stmt, brk: bool, cnt: bool)
    requires Static(sem, s, brk, cnt) && AllLabels(s) * L == Kept(o, s)
    ensures JumpsKept(o, L, s) <==> Needed(o, s) <= L && NoLostSwitch(o, s)
    decreases s, 1
  {
    match s
    case Label(_, b) =>
      NeededMeansKeptBody(sem, o, L, s, b, brk, cnt);
    case Case(_, _, b) =>
      NeededMeansKeptBody(sem, o, L, s, b, brk, cnt);
    case Default(_, b) =>
      NeededMeansKeptBody(sem, o, L, s, b, brk, cnt);
    case Block(ss) => NeededMeansKeptSeq(sem, o, L, ss, brk, cnt);
    case If(_, _, _, _) => NeededMeansKeptIf(sem, o, L, s, brk, cnt);
    case While(c, b) => if !DropsBody(o, c, b) { NeededMeansKept(sem, o, L, b, true, true); }
    case DoWhile(b, _) => NeededMeansKept(sem, o, L, b, true, true);
    case For(_, c, _, b) => if !DropsBody(o, c, b) { NeededMeansKept(sem, o, L, b, true, true); }
    case Switch(_, _, _) => NeededMeansKeptSwitch(sem, o, L, s, brk, cnt);
    case _ =>
  }

  lemma {:induction false} NeededMeansKeptIf(sem: Sem, o: Oracles, L: set<Id>, s: Stmt, brk: bool, cnt: bool)
    requires Static(sem, s, brk, cnt) && AllLabels(s) * L == Kept(o, s) && s.If?
    ensures JumpsKept(o, L, s) <==> Needed(o, s) <= L && NoLostSwitch(o, s)
    decreases s, 0
  {
    var If(_, c, t, e) := s;
    Targets.KeptIn(o, t);
    if e.Some? { Targets.KeptIn(o, e.value); }
    if !(FoldsIf(o, c, t, e) && !o.isTrue(c)) {
      assert AllLabels(t) * L == Kept(o, t);
      NeededMeansKept(sem, o, L, t, brk, cnt);
    }
    if e.Some? && !(FoldsIf(o, c, t, e) && o.isTrue(c)) {
      assert AllLabels(e.value) * L == Kept(o, e.value);
      NeededMeansKept(sem, o, L, e.value, brk, cnt);
    }
  }

  lemma {:induction false} NeededMeansKeptSwitch(sem: Sem, o: Oracles, L: set<Id>, s: Stmt, brk: bool, cnt: bool)
    requires Static(sem, s, brk, cnt) && AllLabels(s) * L == Kept(o, s) && s.Switch?
    ensures JumpsKept(o, L, s) <==> Needed(o, s) <= L && NoLostSwitch(o, s)
    decreases s, 0
  {
    var Switch(_, b, labels) := s;
    SwitchLabelsOwned(sem, labels, b);
    hide LabelsAgree, OwnLabels;
    if ContainsLabel(b) {
      hide ContainsLabel;
      NeededMeansKept(sem, o, L, b, true, cnt);
      var ids := set l | l in labels :: l.id;
      assert forall l :: l in labels ==> l.id in ids;
    }
  }

  lemma SwitchLabelsOwned(sem: Sem, labels: seq<CaseLabel>, b: Stmt)
    requires LabelsAgree(sem, labels, OwnLabels(b))
    ensures forall l :: l in labels ==> l.id in AllLabels(b)
  {
    forall l | l in labels ensures l.id in AllLabels(b) {
      assert l in OwnLabels(b);
      OwnLabelsIn(b, l);
    }
  }

  lemma {:induction false} NeededMeansKeptBody(sem: Sem, o: Oracles, L: set<Id>, s: Stmt, b: Stmt, brk: bool, cnt: bool)
    requires Static(sem, s, brk, cnt) && AllLabels(s) * L == Kept(o, s)
    requires (s.Label? || s.Case? || s.Default?) && s.body == b
    ensures JumpsKept(o, L, b) <==> Needed(o, b) <= L && NoLostSwitch(o, b)
    decreases s, 0
  {
    Targets.KeptIn(o, b);
    assert AllLabels(b) * L == Kept(o, b);
    NeededMeansKept(sem, o, L, b, brk, cnt);
  }

  lemma {:induction false} NeededMeansKeptSeq(sem: Sem, o: Oracles, L: set<Id>, ss: seq<Stmt>, brk: bool, cnt: bool)
    requires StaticSeq(sem, ss, brk, cnt) && AllLabelsSeq(ss) * L == KeptSeq(o, ss)
    ensures JumpsKeptSeq(o, L, ss) <==> NeededSeq(o, ss) <= L && NoLostSwitchSeq(o, ss)
    decreases ss, 0
  {
    if ss != [] {
      Targets.KeptIn(o, ss[0]);
      Targets.KeptSeqIn(o, ss[1..]);
      assert AllLabels(ss[0]) * L == Kept(o, ss[0]);
      assert AllLabelsSeq(ss[1..]) * L == KeptSeq(o, ss[1..]);
      NeededMeansKept(sem, o, L, ss[0], brk, cnt);
      NeededMeansKeptSeq(sem, o, L, ss[1..], brk, cnt);
    }
  }

  lemma {:induction false} NeededNamed(sem: Sem, o: Oracles, s: Stmt, brk: bool, cnt: bool)
    requires Static(sem, s, brk, cnt)
    ensures Needed(o, s) <= GotoTargets(s) + AllLabels(s)
    decreases s, 1
  {
    match s
    case Label(_, b) => NeededNamed(sem, o, b, brk, cnt);
    case Case(_, _, b) => NeededNamed(sem, o, b, brk, cnt);
    case Default(_, b) => NeededNamed(sem, o, b, brk, cnt);
    case Block(ss) => NeededNamedSeq(sem, o, ss, brk, cnt);
    case If(_, _, t, e) =>
      NeededNamed(sem, o, t, brk, cnt);
      if e.Some? { NeededNamed(sem, o, e.value, brk, cnt); }
    case While(_, b) => NeededNamed(sem, o, b, true, true);
    case DoWhile(b, _) => NeededNamed(sem, o, b, true, true);
    case For(_, _, _, b) => NeededNamed(sem, o, b, true, true);
    case Switch(_, b, labels) =>
      NeededNamed(sem, o, b, true, cnt);
      SwitchLabelsOwned(sem, labels, b);
    case _ =>
  }

  lemma {:induction false} NeededNamedSeq(sem: Sem, o: Oracles, ss: seq<Stmt>, brk: bool, cnt: bool)
    requires StaticSeq(sem, ss, brk, cnt)
    ensures NeededSeq(o, ss) <= GotoTargetsSeq(ss) + AllLabelsSeq(ss)
    decreases ss, 0
  {
    if ss != [] {
      NeededNamed(sem, o, ss[0], brk, cnt);
      NeededNamedSeq(sem, o, ss[1..], brk, cnt);
    }
  }

  lemma {:induction false} AimsMeans(C: seq<Cell>, t: Id)
    ensures Aims(C, t) <==> exists i :: 0 <= i < |C| && t in TargetsOf(C[i].node)
  {
    if C != [] {
      AimsMeans(C[1..], t);
      if i :| 0 <= i < |C| && t in TargetsOf(C[i].node) {
        assert i > 0 ==> C[1..][i - 1] == C[i];
      }
    }
  }

  lemma CountMeans(C: seq<Cell>, t: Id)
    ensures Count(C, t) > 0 <==> exists j :: 0 <= j < |C| && C[j].id == t
  {
    FindAbsent(C, t);
    forall j | 0 <= j < |C| && C[j].id == t ensures Count(C, t) > 0 { CountPlaced(C, j); }
  }

  // ----- Where returns go -----

  lemma ReturnsAppend(a: seq<Cell>, b: seq<Cell>, exit: Id)
    ensures ReturnsExit(a + b, exit) <==> ReturnsExit(a, exit) && ReturnsExit(b, exit)
  {
    forall i | 0 <= i < |a| ensures (a + b)[i] == a[i] { }
    forall i | 0 <= i < |b| ensures (a + b)[|a| + i] == b[i] { }
  }

  /** Lowered branches and bodies are joined by nodes that do not return. */
  lemma ReturnsAround(a: seq<Cell>, b: seq<Cell>, c: seq<Cell>, exit: Id)
    requires ReturnsExit(a, exit) && ReturnsExit(b, exit) && ReturnsExit(c, exit)
    ensures ReturnsExit(a + b + c, exit) && ReturnsExit(a + b, exit)
  {
    ReturnsAppend(a, b, exit);
    ReturnsAppend(a + b, c, exit);
  }

  lemma {:induction false} DecReturns(inits: seq<Option<Expr>>, n: Id, exit: Id)
    ensures ReturnsExit(LowerDec(inits, n).cells, exit)
  {
    if inits != [] {
      if inits[0].Some? {
        DecReturns(inits[1..], n + 1, exit);
        ReturnsAppend([Cell(n, NExpr(Plain(inits[0].value)))], LowerDec(inits[1..], n + 1).cells, exit);
      } else {
        DecReturns(inits[1..], n, exit);
      }
    }
  }

  lemma {:induction false} ChainReturns(labels: seq<CaseLabel>, sym: Id, dflt: Id, n: Id, exit: Id)
    ensures ReturnsExit(Chain(labels, sym, dflt, n).cells, exit)
  {
    if labels != [] {
      if labels[0].DefaultLabel? {
        ChainReturns(labels[1..], sym, dflt, n, exit);
      } else {
        var r := Chain(labels[1..], sym, dflt, n + 2);
        ChainReturns(labels[1..], sym, dflt, n + 2, exit);
        ReturnsAppend([Cell(n + 1, NBranch(SelectorIs(sym, labels[0].e), Some(n), First(r.cells))),
                       Cell(n, NJump(Some(labels[0].id)))], r.cells, exit);
      }
    }
  }

  lemma JoinReturns(id: Id, c: Expr, T: seq<Cell>, F: seq<Cell>, n: Id, exit: Id)
    requires ReturnsExit(T, exit) && ReturnsExit(F, exit)
    ensures ReturnsExit(JoinIf(id, c, T, F, n).cells, exit)
  {
    var tail, jump := [Cell(n, NPesudo)], [Cell(n + 1, NJump(Some(n)))];
    var branch := Cell(id, NBranch(Plain(c), First(T), if F == [] then Some(n) else First(F)));
    ReturnsAround([branch], T, tail, exit);
    ReturnsAround([branch], T, jump, exit);
    ReturnsAround([branch] + T + jump, F, tail, exit);
    ReturnsAround([Cell(id, NBranch(Plain(c), Some(n + 1), First(F))), jump[0]], F, tail, exit);
  }

  lemma CloseReturns(head: seq<Cell>, last: seq<Cell>, top: Id, bp: Id, n: Id, exit: Id)
    requires ReturnsExit(head, exit) && ReturnsExit(last, exit)
    ensures ReturnsExit(CloseLoop(head, last, top, bp, n).cells, exit)
  {
    ReturnsAround(head, last, [Cell(n, NJump(Some(top))), Cell(bp, NPesudo)], exit);
  }

  lemma DoReturns(o: Oracles, c: Expr, folds: bool, B: Code, n: Id, exit: Id)
    requires ReturnsExit(B.cells, exit)
    ensures ReturnsExit(FinishDo(o, c, folds, B, n).cells, exit)
  {
    var head, cp, bp := [Cell(B.n, NPesudo)], [Cell(n, NPesudo)], [Cell(n + 1, NPesudo)];
    ReturnsAround(head, B.cells, cp, exit);
    if folds && !o.isTrue(c) {
      ReturnsAround(B.cells, cp, OptExpr(o, c, B.n).cells, exit);
      ReturnsAround(B.cells + cp, OptExpr(o, c, B.n).cells, bp, exit);
    } else if folds {
      CloseReturns(head + B.cells + cp, OptExpr(o, c, B.n + 1).cells, B.n, n + 1, OptExpr(o, c, B.n + 1).n, exit);
    } else {
      ReturnsAppend(head + B.cells + cp, [Cell(B.n + 1, NBranch(Plain(c), Some(B.n), Some(n + 1))), bp[0]], exit);
    }
  }

  lemma FinishForReturns(o: Oracles, head: seq<Cell>, B: Code, inc: Expr, top: Id, cp: Id, bp: Id, exit: Id)
    requires ReturnsExit(head, exit) && ReturnsExit(B.cells, exit)
    ensures ReturnsExit(FinishFor(o, head, B, inc, top, cp, bp).cells, exit)
  {
    var post := OptExpr(o, inc, B.n);
    ReturnsAround(head, B.cells, [Cell(cp, NPesudo)], exit);
    CloseReturns(head + B.cells + [Cell(cp, NPesudo)], post.cells, top, bp, post.n, exit);
  }

  lemma {:induction false} ForReturns(o: Oracles, c: Expr, inc: Expr, b: Stmt, n: Id, x: Ctx)
    ensures ReturnsExit(LowerForTest(o, c, inc, b, n, x).cells, x.rp)
    decreases b, 2
  {
    if FoldsLoop(o, c, b) && o.isTrue(c) {
      var pre := OptExpr(o, c, n + 2);
      var y := Ctx(Some(pre.n), Some(n + 1), x.rp);
      LowerReturns(o, b, pre.n + 1, y);
      ReturnsAppend([Cell(n, NPesudo)], pre.cells, x.rp);
      FinishForReturns(o, [Cell(n, NPesudo)] + pre.cells, Lower(o, b, pre.n + 1, y), inc, n, n + 1, pre.n, x.rp);
    } else if !FoldsLoop(o, c, b) {
      var B := Lower(o, b, n + 4, Ctx(Some(n + 3), Some(n + 1), x.rp));
      LowerReturns(o, b, n + 4, Ctx(Some(n + 3), Some(n + 1), x.rp));
      FinishForReturns(o, TestedHead(n, n + 2, c, B.cells, n + 3), B, inc, n, n + 1, n + 3, x.rp);
    }
  }

  lemma {:induction false} WhileReturns(o: Oracles, c: Expr, b: Stmt, n: Id, x: Ctx)
    ensures ReturnsExit(Lower(o, While(c, b), n, x).cells, x.rp)
    decreases b, 2
  {
    if FoldsLoop(o, c, b) && o.isTrue(c) {
      var pre := OptExpr(o, c, n + 1);
      var y := Ctx(Some(pre.n), Some(n), x.rp);
      LowerReturns(o, b, pre.n + 1, y);
      ReturnsAppend([Cell(n, NPesudo)], pre.cells, x.rp);
      var B := Lower(o, b, pre.n + 1, y);
      CloseReturns([Cell(n, NPesudo)] + pre.cells, B.cells, n, pre.n, B.n, x.rp);
    } else if !FoldsLoop(o, c, b) {
      var B := Lower(o, b, n + 3, Ctx(Some(n + 2), Some(n), x.rp));
      LowerReturns(o, b, n + 3, Ctx(Some(n + 2), Some(n), x.rp));
      CloseReturns(TestedHead(n, n + 1, c, B.cells, n + 2), B.cells, n, n + 2, B.n, x.rp);
    }
  }

  lemma {:induction false} IfReturns(o: Oracles, id: Id, c: Expr, t: Stmt, e: Option<Stmt>, n: Id, x: Ctx)
    ensures ReturnsExit(Lower(o, If(id, c, t, e), n, x).cells, x.rp)
    decreases If(id, c, t, e), 0
  {
    if FoldsIf(o, c, t, e) {
      var pre := OptExpr(o, c, n);
      if o.isTrue(c) {
        LowerReturns(o, t, pre.n, x);
        ReturnsAppend(pre.cells, Lower(o, t, pre.n, x).cells, x.rp);
      } else if e.Some? {
        LowerReturns(o, e.value, pre.n, x);
        ReturnsAppend(pre.cells, Lower(o, e.value, pre.n, x).cells, x.rp);
      }
    } else {
      var T := Lower(o, t, n, x);
      var F := if e.Some? then Lower(o, e.value, T.n, x) else Code([], T.n);
      LowerReturns(o, t, n, x);
      if e.Some? { LowerReturns(o, e.value, T.n, x); }
      JoinReturns(id, c, T.cells, F.cells, F.n, x.rp);
    }
  }

  lemma {:induction false} SwitchReturns(o: Oracles, e: Expr, b: Stmt, labels: seq<CaseLabel>, n: Id, x: Ctx)
    ensures ReturnsExit(Lower(o, Switch(e, b, labels), n, x).cells, x.rp)
    decreases b, 2
  {
    if ContainsLabel(b) {
      var assign, dflt := [Cell(n + 1, NExpr(SetSelector(n, e)))], DefaultTarget(labels, n + 2);
      var chain := Chain(labels, n, dflt, n + 3);
      var B := Lower(o, b, chain.n, Ctx(Some(n + 2), x.cp, x.rp));
      ChainReturns(labels, n, dflt, n + 3, x.rp);
      LowerReturns(o, b, chain.n, Ctx(Some(n + 2), x.cp, x.rp));
      ReturnsAround(assign, chain.cells, B.cells, x.rp);
      ReturnsAppend(assign + chain.cells + B.cells, [Cell(n + 2, NPesudo)], x.rp);
    }
  }

  /** Every return of lowered code, executed or not, targets the return point passed down. */
  lemma {:induction false} LowerReturns(o: Oracles, s: Stmt, n: Id, x: Ctx)
    ensures ReturnsExit(Lower(o, s, n, x).cells, x.rp)
    decreases s, 1
  {
    hide ReturnsExit;
    match s
    case Dec(inits) => DecReturns(inits, n, x.rp);
    case Label(_, b) => LabelReturns(o, s, n, x);
    case Case(_, _, b) => LabelReturns(o, s, n, x);
    case Default(_, b) => LabelReturns(o, s, n, x);
    case Block(ss) => SeqReturns(o, ss, n, x);
    case If(id, c, t, e) => IfReturns(o, id, c, t, e, n, x);
    case While(c, b) => WhileReturns(o, c, b, n, x);
    case DoWhile(b, c) =>
      LowerReturns(o, b, n + 2, Ctx(Some(n + 1), Some(n), x.rp));
      DoReturns(o, c, FoldsLoop(o, c, b), Lower(o, b, n + 2, Ctx(Some(n + 1), Some(n), x.rp)), n, x.rp);
    case For(i, c, inc, b) =>
      var I := OptExpr(o, i, n);
      LeafReturns(o, i, n, x.rp);
      ForReturns(o, c, inc, b, I.n, x);
      ReturnsAppend(I.cells, LowerForTest(o, c, inc, b, I.n, x).cells, x.rp);
    case Switch(e, b, labels) => SwitchReturns(o, e, b, labels, n, x);
    case _ => OneReturns(Lower(o, s, n, x).cells[0], x.rp);
  }

  lemma LeafReturns(o: Oracles, e: Expr, n: Id, exit: Id)
    ensures ReturnsExit(OptExpr(o, e, n).cells, exit)
  {
  }

  lemma OneReturns(c: Cell, exit: Id)
    requires c.node.NReturn? ==> c.node.target == Some(exit)
    ensures ReturnsExit([c], exit)
  {
  }

  lemma {:induction false} LabelReturns(o: Oracles, s: Stmt, n: Id, x: Ctx)
    requires s.Label? || s.Case? || s.Default?
    ensures ReturnsExit(Lower(o, s, n, x).cells, x.rp)
    decreases s, 0
  {
    LowerReturns(o, s.body, n, x);
    ReturnsAppend([Lower(o, s, n, x).cells[0]], Lower(o, s.body, n, x).cells, x.rp);
  }

  lemma {:induction false} SeqReturns(o: Oracles, ss: seq<Stmt>, n: Id, x: Ctx)
    ensures ReturnsExit(LowerSeq(o, ss, n, x).cells, x.rp)
    decreases ss, 0
  {
    if ss != [] {
      var a := Lower(o, ss[0], n, x);
      LowerReturns(o, ss[0], n, x);
      SeqReturns(o, ss[1..], a.n, x);
      ReturnsAppend(a.cells, LowerSeq(o, ss[1..], a.n, x).cells, x.rp);
    }
  }

  // ----- The finished list -----

  /** The finished list is closed exactly when no surviving jump names a label in dropped code. */
  lemma ClosedExactly(sem: Sem, o: Oracles, fn: seq<Stmt>, n: Id)
    requires WellFormedFunction(sem, fn, n) && GotoTargetsSeq(fn) <= AllLabelsSeq(fn)
    ensures ListClosed(LowerFunction(o, fn, n).cells) <==> NeededSeq(o, fn) <= KeptSeq(o, fn)
    ensures ReturnsExit(LowerFunction(o, fn, n).cells, n)
    ensures KeepsTargets(o, fn) <==> ListClosed(LowerFunction(o, fn, n).cells) && NoLostSwitchSeq(o, fn)
  {
    var C, x := LowerFunction(o, fn, n).cells, Ctx(None, None, n);
    Targets.KeptSeqIn(o, fn);
    NeededMeansKeptSeq(sem, o, KeptSeq(o, fn), fn, false, false);
    NeededNamedSeq(sem, o, fn, false, false);
    SeqReturns(o, fn, n + 1, x);
    forall t ensures (Aims(C, t) ==> Count(C, t) > 0) <==> (t in NeededSeq(o, fn) ==> t in KeptSeq(o, fn)) {
      LowerSeqFits(sem, o, fn, n + 1, x, false, false, t);
      LabelsPlacedSeq(o, fn, n + 1, x, t);
    }
    forall t ensures Aims(C, t) <==> exists i :: 0 <= i < |C| && t in TargetsOf(C[i].node) { AimsMeans(C, t); }
    forall t ensures Count(C, t) > 0 <==> exists j :: 0 <= j < |C| && C[j].id == t { CountMeans(C, t); }
    hide WellFormedFunction, LowerFunction, Aims, Count, NeededSeq, KeptSeq, NoLostSwitchSeq, TargetsOf, JumpsKeptSeq;
    if ListClosed(C) {
      forall t | Aims(C, t) ensures Count(C, t) > 0 { }
      assert NeededSeq(o, fn) <= KeptSeq(o, fn);
    }
    if NeededSeq(o, fn) <= KeptSeq(o, fn) {
      forall i, t | 0 <= i < |C| && t in TargetsOf(C[i].node) ensures exists j :: 0 <= j < |C| && C[j].id == t {
        assert Aims(C, t);
      }
    }
  }
}
