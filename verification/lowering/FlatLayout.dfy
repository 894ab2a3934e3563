/** Where nodes lie in the flat list: no node occurs twice, so every placed node is found at its place. */
module FlatLayout {
  import opened Wrappers
  import opened Syntax
  import opened Semantics
  import opened Lowering

  /** How often the node `id` occurs in a list. */
  function Count(C: seq<Cell>, id: Id): nat {
    if C == [] then 0 else (if C[0].id == id then 1 else 0) + Count(C[1..], id)
  }

  /** No node is placed twice. */
  ghost predicate Unique(C: seq<Cell>) {
    forall id :: Count(C, id) <= 1
  }

  predicate Below(ids: set<Id>, n: Id) {
    forall id :: id in ids ==> id < n
  }

  lemma {:induction false} CountAppend(a: seq<Cell>, b: seq<Cell>, id: Id)
    ensures Count(a + b, id) == Count(a, id) + Count(b, id)
  {
    if a == [] {
      assert a + b == b;
    } else {
      CountAppend(a[1..], b, id);
      assert (a + b)[1..] == a[1..] + b;
    }
  }

  lemma CountTwo(c: Cell, d: Cell, id: Id)
    ensures Count([c], id) == if c.id == id then 1 else 0
    ensures Count([c, d], id) == (if c.id == id then 1 else 0) + (if d.id == id then 1 else 0)
  {
    assert [c][1..] == [] && [c, d][1..] == [d] && [d][1..] == [];
  }

  /** Known code between a head and two closing cells. */
  lemma CountAround(head: seq<Cell>, B: seq<Cell>, c: Cell, d: Cell, id: Id)
    ensures Count(head + B + [c, d], id) == Count(head, id) + Count(B, id) + Count([c, d], id)
    ensures Count(head + B + [c], id) == Count(head, id) + Count(B, id) + Count([c], id)
  {
    CountAppend(head, B, id);
    CountAppend(head + B, [c, d], id);
    CountAppend(head + B, [c], id);
  }

  lemma {:induction false} CountPlaced(C: seq<Cell>, i: nat)
    requires i < |C|
    ensures Count(C, C[i].id) >= 1
  {
    if i > 0 { CountPlaced(C[1..], i - 1); }
  }

  lemma {:induction false} FindPlaced(C: seq<Cell>, i: nat)
    requires i < |C| && Count(C, C[i].id) <= 1
    ensures Find(C, C[i].id) == i
  {
    if i > 0 {
      CountPlaced(C[1..], i - 1);
      FindPlaced(C[1..], i - 1);
    }
  }

  /** Nothing is found that is not there. */
  lemma {:induction false} FindAbsent(C: seq<Cell>, id: Id)
    ensures Find(C, id) <= |C|
    ensures Find(C, id) < |C| ==> C[Find(C, id)].id == id
    ensures Find(C, id) == |C| <==> Count(C, id) == 0
  {
    if C != [] { FindAbsent(C[1..], id); }
  }

  /** How often the node `id` may occur in code lowered from identity `lo` on for the tree nodes `ids`. */
  function Quota(ids: set<Id>, lo: Id, hi: Id, id: Id): nat {
    if id in ids || lo <= id < hi then 1 else 0
  }

  ghost predicate Good(r: Code, ids: set<Id>, lo: Id, id: Id) {
    r.n >= lo && Count(r.cells, id) <= Quota(ids, lo, r.n, id)
  }

  lemma OptExprIds(o: Oracles, e: Expr, n: Id, id: Id)
    ensures Good(OptExpr(o, e, n), {}, n, id)
  {
    CountTwo(Cell(n, NExpr(Plain(e))), Cell(n, NExpr(Plain(e))), id);
  }

  lemma {:induction false} LowerDecIds(inits: seq<Option<Expr>>, n: Id, id: Id)
    ensures Good(LowerDec(inits, n), {}, n, id)
  {
    if inits != [] {
      if inits[0].None? {
        LowerDecIds(inits[1..], n, id);
      } else {
        LowerDecIds(inits[1..], n + 1, id);
        var c := Cell(n, NExpr(Plain(inits[0].value)));
        CountTwo(c, c, id);
        CountAppend([c], LowerDec(inits[1..], n + 1).cells, id);
      }
    }
  }

  lemma {:induction false} ChainIds(labels: seq<CaseLabel>, sym: Id, dflt: Id, n: Id, id: Id)
    ensures Good(Chain(labels, sym, dflt, n), {}, n, id)
  {
    if labels == [] {
      CountTwo(Cell(n, NJump(Some(dflt))), Cell(n, NPesudo), id);
    } else if labels[0].DefaultLabel? {
      ChainIds(labels[1..], sym, dflt, n, id);
    } else {
      ChainIds(labels[1..], sym, dflt, n + 2, id);
      var r := Chain(labels[1..], sym, dflt, n + 2);
      var c := Cell(n + 1, NBranch(SelectorIs(sym, labels[0].e), Some(n), First(r.cells)));
      var d := Cell(n, NJump(Some(labels[0].id)));
      CountTwo(c, d, id);
      CountAppend([c, d], r.cells, id);
    }
  }

  lemma IfIds(node: Id, c: Expr, T: Code, F: Code, tIds: set<Id>, fIds: set<Id>, n: Id, id: Id)
    requires Below(tIds, n) && Below(fIds, n) && node < n
    requires node !in tIds && node !in fIds && tIds !! fIds
    requires Good(T, tIds, n, id) && Good(F, fIds, T.n, id)
    ensures Good(JoinIf(node, c, T.cells, F.cells, F.n), {node} + tIds + fIds, n, id)
  {
    var tail, jump := Cell(F.n, NPesudo), Cell(F.n + 1, NJump(Some(F.n)));
    if T.cells == [] && F.cells == [] {
      CountTwo(Cell(F.n, NExpr(Plain(c))), tail, id);
    } else if T.cells == [] {
      var head := Cell(node, NBranch(Plain(c), Some(F.n + 1), First(F.cells)));
      CountTwo(head, jump, id);
      CountTwo(tail, tail, id);
      CountAround([head, jump], F.cells, tail, tail, id);
    } else if F.cells == [] {
      var head := Cell(node, NBranch(Plain(c), First(T.cells), Some(F.n)));
      CountTwo(head, tail, id);
      CountTwo(tail, tail, id);
      CountAround([head], T.cells, tail, tail, id);
    } else {
      var head := Cell(node, NBranch(Plain(c), First(T.cells), First(F.cells)));
      CountTwo(head, jump, id);
      CountTwo(jump, tail, id);
      CountTwo(tail, tail, id);
      CountAround([head], T.cells, jump, jump, id);
      CountAround([head] + T.cells + [jump], F.cells, tail, tail, id);
    }
  }

  lemma CloseLoopIds(head: seq<Cell>, last: seq<Cell>, top: Id, bp: Id, n: Id, id: Id)
    ensures Count(CloseLoop(head, last, top, bp, n).cells, id)
         == Count(head, id) + Count(last, id) + (if n == id then 1 else 0) + (if bp == id then 1 else 0)
  {
    var c, d := Cell(n, NJump(Some(top))), Cell(bp, NPesudo);
    CountTwo(c, d, id);
    CountAround(head, last, c, d, id);
  }

  lemma WhileIds(o: Oracles, c: Expr, b: Stmt, n: Id, x: Ctx, id: Id)
    requires Below(NodeIds(b), n)
    requires forall m, y :: m >= n ==> Good(Lower(o, b, m, y), NodeIds(b), m, id)
    ensures Good(Lower(o, While(c, b), n, x), NodeIds(b), n, id)
  {
    if FoldsLoop(o, c, b) && !o.isTrue(c) {
      OptExprIds(o, c, n, id);
    } else if FoldsLoop(o, c, b) {
      OptExprIds(o, c, n + 1, id);
      var pre := OptExpr(o, c, n + 1);
      var B := Lower(o, b, pre.n + 1, Ctx(Some(pre.n), Some(n), x.rp));
      CountTwo(Cell(n, NPesudo), Cell(n, NPesudo), id);
      CountAppend([Cell(n, NPesudo)], pre.cells, id);
      CloseLoopIds([Cell(n, NPesudo)] + pre.cells, B.cells, n, pre.n, B.n, id);
    } else {
      var B := Lower(o, b, n + 3, Ctx(Some(n + 2), Some(n), x.rp));
      var head := TestedHead(n, n + 1, c, B.cells, n + 2);
      CountTwo(head[0], head[1], id);
      CloseLoopIds(head, B.cells, n, n + 2, B.n, id);
    }
  }

  lemma DoIds(o: Oracles, c: Expr, folds: bool, B: Code, ids: set<Id>, n: Id, id: Id)
    requires Below(ids, n)
    requires Good(B, ids, n + 2, id)
    ensures Good(FinishDo(o, c, folds, B, n), ids, n, id)
  {
    var head, cp, bp := Cell(B.n, NPesudo), Cell(n, NPesudo), Cell(n + 1, NPesudo);
    CountTwo(head, cp, id);
    CountTwo(cp, bp, id);
    CountTwo(bp, bp, id);
    if folds && !o.isTrue(c) {
      OptExprIds(o, c, B.n, id);
      CountAppend(B.cells, [cp], id);
      CountAround(B.cells + [cp], OptExpr(o, c, B.n).cells, bp, bp, id);
    } else {
      CountAround([head], B.cells, cp, cp, id);
      if folds {
        OptExprIds(o, c, B.n + 1, id);
        var pre := OptExpr(o, c, B.n + 1);
        CloseLoopIds([head] + B.cells + [cp], pre.cells, B.n, n + 1, pre.n, id);
      } else {
        var branch := Cell(B.n + 1, NBranch(Plain(c), Some(B.n), Some(n + 1)));
        CountTwo(branch, bp, id);
        CountAppend([head] + B.cells + [cp], [branch, bp], id);
      }
    }
  }

  lemma FinishForIds(o: Oracles, head: seq<Cell>, B: Code, inc: Expr, top: Id, cp: Id, bp: Id, id: Id)
    ensures var r := FinishFor(o, head, B, inc, top, cp, bp);
            B.n < r.n && Count(r.cells, id) <= Count(head, id) + Count(B.cells, id)
            + (if cp == id then 1 else 0) + (if bp == id then 1 else 0) + Quota({}, B.n, r.n, id)
  {
    OptExprIds(o, inc, B.n, id);
    var post := OptExpr(o, inc, B.n);
    var c := Cell(cp, NPesudo);
    CountTwo(c, c, id);
    CountAround(head, B.cells, c, c, id);
    CloseLoopIds(head + B.cells + [c], post.cells, top, bp, post.n, id);
  }

  lemma ForTestIds(o: Oracles, c: Expr, inc: Expr, b: Stmt, n: Id, x: Ctx, id: Id)
    requires Below(NodeIds(b), n)
    requires forall m, y :: m >= n ==> Good(Lower(o, b, m, y), NodeIds(b), m, id)
    ensures Good(LowerForTest(o, c, inc, b, n, x), NodeIds(b), n, id)
  {
    if FoldsLoop(o, c, b) && !o.isTrue(c) {
      OptExprIds(o, c, n, id);
    } else if FoldsLoop(o, c, b) {
      OptExprIds(o, c, n + 2, id);
      var pre := OptExpr(o, c, n + 2);
      var B := Lower(o, b, pre.n + 1, Ctx(Some(pre.n), Some(n + 1), x.rp));
      CountTwo(Cell(n, NPesudo), Cell(n, NPesudo), id);
      CountAppend([Cell(n, NPesudo)], pre.cells, id);
      FinishForIds(o, [Cell(n, NPesudo)] + pre.cells, B, inc, n, n + 1, pre.n, id);
    } else {
      var B := Lower(o, b, n + 4, Ctx(Some(n + 3), Some(n + 1), x.rp));
      var head := TestedHead(n, n + 2, c, B.cells, n + 3);
      CountTwo(head[0], head[1], id);
      FinishForIds(o, head, B, inc, n, n + 1, n + 3, id);
    }
  }

  lemma SwitchIds(o: Oracles, e: Expr, b: Stmt, labels: seq<CaseLabel>, n: Id, x: Ctx, id: Id)
    requires Below(NodeIds(b), n)
    requires forall m, y :: m >= n ==> Good(Lower(o, b, m, y), NodeIds(b), m, id)
    ensures Good(Lower(o, Switch(e, b, labels), n, x), NodeIds(b), n, id)
  {
    var assign := [Cell(n + 1, NExpr(SetSelector(n, e)))];
    var bp := Cell(n + 2, NPesudo);
    CountTwo(assign[0], bp, id);
    CountTwo(bp, bp, id);
    if ContainsLabel(b) {
      var dflt := DefaultTarget(labels, n + 2);
      var chain := Chain(labels, n, dflt, n + 3);
      ChainIds(labels, n, dflt, n + 3, id);
      var B := Lower(o, b, chain.n, Ctx(Some(n + 2), x.cp, x.rp));
      CountAppend(assign, chain.cells, id);
      CountAround(assign + chain.cells, B.cells, bp, bp, id);
    }
  }

  /** A statement's cells carry its own tree identities and freshly handed out ones, none twice. */
  lemma {:induction false} LowerIds(o: Oracles, s: Stmt, n: Id, x: Ctx, id: Id)
    requires DistinctIds(s)
    requires Below(NodeIds(s), n)
    ensures Good(Lower(o, s, n, x), NodeIds(s), n, id)
    decreases s, 1
  {
    match s
    case Dec(inits) => LowerDecIds(inits, n, id);
    case Label(node, b) =>
      assert NodeIds(b) <= NodeIds(s);
      LowerIds(o, b, n, x, id);
      CountAppend([Lower(o, s, n, x).cells[0]], Lower(o, b, n, x).cells, id);
    case Case(node, _, b) =>
      assert NodeIds(b) <= NodeIds(s);
      LowerIds(o, b, n, x, id);
      CountAppend([Lower(o, s, n, x).cells[0]], Lower(o, b, n, x).cells, id);
    case Default(node, b) =>
      assert NodeIds(b) <= NodeIds(s);
      LowerIds(o, b, n, x, id);
      CountAppend([Lower(o, s, n, x).cells[0]], Lower(o, b, n, x).cells, id);
    case Block(ss) => LowerSeqIds(o, ss, n, x, id);
    case If(_, _, _, _) => LowerIfIds(o, s, n, x, id);
    case While(c, b) =>
      forall m: Id, y: Ctx | m >= n ensures Good(Lower(o, b, m, y), NodeIds(b), m, id) { LowerIds(o, b, m, y, id); }
      WhileIds(o, c, b, n, x, id);
    case DoWhile(b, c) =>
      LowerIds(o, b, n + 2, Ctx(Some(n + 1), Some(n), x.rp), id);
      DoIds(o, c, FoldsLoop(o, c, b), Lower(o, b, n + 2, Ctx(Some(n + 1), Some(n), x.rp)), NodeIds(b), n, id);
    case For(i, c, inc, b) =>
      forall m: Id, y: Ctx | m >= n ensures Good(Lower(o, b, m, y), NodeIds(b), m, id) { LowerIds(o, b, m, y, id); }
      var I := OptExpr(o, i, n);
      OptExprIds(o, i, n, id);
      ForTestIds(o, c, inc, b, I.n, x, id);
      CountAppend(I.cells, LowerForTest(o, c, inc, b, I.n, x).cells, id);
    case Switch(e, b, labels) =>
      forall m: Id, y: Ctx | m >= n ensures Good(Lower(o, b, m, y), NodeIds(b), m, id) { LowerIds(o, b, m, y, id); }
      SwitchIds(o, e, b, labels, n, x, id);
    case _ =>
      var c := Lower(o, s, n, x).cells[0];
      CountTwo(c, c, id);
  }

  lemma {:induction false} LowerIfIds(o: Oracles, s: Stmt, n: Id, x: Ctx, id: Id)
    requires s.If? && DistinctIds(s)
    requires Below(NodeIds(s), n)
    ensures Good(Lower(o, s, n, x), NodeIds(s), n, id)
    decreases s, 0
  {
    var If(node, c, t, e) := s;
    assert node in NodeIds(s) && NodeIds(t) <= NodeIds(s) && (e.Some? ==> NodeIds(e.value) <= NodeIds(s));
    if FoldsIf(o, c, t, e) {
      var pre := OptExpr(o, c, n);
      OptExprIds(o, c, n, id);
      if o.isTrue(c) {
        LowerIds(o, t, pre.n, x, id);
        CountAppend(pre.cells, Lower(o, t, pre.n, x).cells, id);
      } else if e.Some? {
        LowerIds(o, e.value, pre.n, x, id);
        CountAppend(pre.cells, Lower(o, e.value, pre.n, x).cells, id);
      }
    } else {
      LowerIds(o, t, n, x, id);
      var T := Lower(o, t, n, x);
      if e.Some? { LowerIds(o, e.value, T.n, x, id); }
      var F := if e.Some? then Lower(o, e.value, T.n, x) else Code([], T.n);
      IfIds(node, c, T, F, NodeIds(t), if e.Some? then NodeIds(e.value) else {}, n, id);
    }
  }

  lemma {:induction false} LowerSeqIds(o: Oracles, ss: seq<Stmt>, n: Id, x: Ctx, id: Id)
    requires DistinctIdsSeq(ss)
    requires Below(NodeIdsSeq(ss), n)
    ensures Good(LowerSeq(o, ss, n, x), NodeIdsSeq(ss), n, id)
    decreases ss, 0
  {
    if ss != [] {
      assert NodeIds(ss[0]) <= NodeIdsSeq(ss) && NodeIdsSeq(ss[1..]) <= NodeIdsSeq(ss);
      LowerIds(o, ss[0], n, x, id);
      var a := Lower(o, ss[0], n, x);
      LowerSeqIds(o, ss[1..], a.n, x, id);
      CountAppend(a.cells, LowerSeq(o, ss[1..], a.n, x).cells, id);
    }
  }

  /** In the finished list no node occurs twice, and the return point does not occur. */
  lemma NoNodeTwice(o: Oracles, fn: seq<Stmt>, n: Id)
    requires DistinctIdsSeq(fn) && Below(NodeIdsSeq(fn), n)
    ensures Unique(LowerFunction(o, fn, n).cells)
    ensures Count(LowerFunction(o, fn, n).cells, n) == 0
  {
    forall id
      ensures Count(LowerFunction(o, fn, n).cells, id) <= Quota(NodeIdsSeq(fn), n + 1, LowerFunction(o, fn, n).n, id)
    {
      LowerSeqIds(o, fn, n + 1, Ctx(None, None, n), id);
    }
  }
}
