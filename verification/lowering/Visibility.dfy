/**
  When the label search suffices: a function all of whose parts show their
  labels through blocks keeps its meaning, whatever the oracles fold.
 */
module Visibility {
  import opened Wrappers
  import opened Syntax
  import opened Semantics
  import opened Lowering
  import opened WellFormed
  import opened Simulation
  import opened Preservation

  // ----- What the search sees -----

  /** The labels that are reached from a statement through blocks and other labels only. */
  function Visible(s: Stmt): set<Id>
    decreases s, 1
  {
    match s
    case Label(id, b) => {id} + Visible(b)
    case Case(id, _, b) => {id} + Visible(b)
    case Default(id, b) => {id} + Visible(b)
    case Block(ss) => VisibleSeq(ss)
    case _ => {}
  }

  function VisibleSeq(ss: seq<Stmt>): set<Id>
    decreases ss, 0
  {
    if ss == [] then {} else Visible(ss[0]) + VisibleSeq(ss[1..])
  }

  /** The search finds a label exactly when one is visible. */
  lemma {:induction false} ContainsLabelExactly(s: Stmt)
    ensures ContainsLabel(s) <==> Visible(s) != {}
    decreases s, 1
  {
    if s.Block? {
      ContainsLabelSeq(s.stmts);
    }
  }

  lemma {:induction false} ContainsLabelSeq(ss: seq<Stmt>)
    ensures (exists i :: 0 <= i < |ss| && ContainsLabel(ss[i])) <==> VisibleSeq(ss) != {}
    decreases ss, 0
  {
    if ss != [] {
      ContainsLabelExactly(ss[0]);
      ContainsLabelSeq(ss[1..]);
      if i :| 0 <= i < |ss| && ContainsLabel(ss[i]) {
        assert i > 0 ==> ss[1..][i - 1] == ss[i];
      }
      if i :| 0 <= i < |ss[1..]| && ContainsLabel(ss[1..][i]) {
        assert ss[i + 1] == ss[1..][i];
      }
    }
  }

  lemma {:induction false} VisibleAreLabels(s: Stmt)
    ensures Visible(s) <= AllLabels(s)
    decreases s, 1
  {
    match s
    case Label(_, b) => VisibleAreLabels(b);
    case Case(_, _, b) => VisibleAreLabels(b);
    case Default(_, b) => VisibleAreLabels(b);
    case Block(ss) => VisibleSeqAreLabels(ss);
    case _ =>
  }

  lemma {:induction false} VisibleSeqAreLabels(ss: seq<Stmt>)
    ensures VisibleSeq(ss) <= AllLabelsSeq(ss)
    decreases ss, 0
  {
    if ss != [] {
      VisibleAreLabels(ss[0]);
      VisibleSeqAreLabels(ss[1..]);
    }
  }

  // ----- Functions that show their labels -----

  /** A part that may be dropped has no label, or a visible one. */
  predicate Shows(s: Stmt) {
    AllLabels(s) == {} || Visible(s) != {}
  }

  /** Every branch, loop body and switch body shows its labels; the body of a do statement is never dropped. */
  predicate LabelsShow(s: Stmt)
    decreases s, 1
  {
    match s
    case Label(_, b) => LabelsShow(b)
    case Case(_, _, b) => LabelsShow(b)
    case Default(_, b) => LabelsShow(b)
    case Block(ss) => LabelsShowSeq(ss)
    case If(_, _, t, e) => Shows(t) && LabelsShow(t) && (e.Some? ==> Shows(e.value) && LabelsShow(e.value))
    case While(_, b) => Shows(b) && LabelsShow(b)
    case DoWhile(b, _) => LabelsShow(b)
    case For(_, _, _, b) => Shows(b) && LabelsShow(b)
    case Switch(_, b, _) => Shows(b) && LabelsShow(b)
    case _ => true
  }

  predicate LabelsShowSeq(ss: seq<Stmt>)
    decreases ss, 0
  {
    ss != [] ==> LabelsShow(ss[0]) && LabelsShowSeq(ss[1..])
  }

  /** A part that shows its labels but holds none the search sees holds none. */
  lemma NothingHidden(s: Stmt)
    requires Shows(s) && !ContainsLabel(s)
    ensures AllLabels(s) == {}
  {
    ContainsLabelExactly(s);
  }

  /** No label is dropped. */
  lemma {:induction false} KeptAll(o: Oracles, s: Stmt)
    requires LabelsShow(s)
    ensures Kept(o, s) == AllLabels(s)
    decreases s, 1
  {
    match s
    case Label(_, b) => KeptAll(o, b);
    case Case(_, _, b) => KeptAll(o, b);
    case Default(_, b) => KeptAll(o, b);
    case Block(ss) => KeptAllSeq(o, ss);
    case If(_, c, t, e) =>
      KeptAll(o, t);
      if e.Some? { KeptAll(o, e.value); }
      if FoldsIf(o, c, t, e) {
        NothingHidden(t);
        if e.Some? { NothingHidden(e.value); }
      }
    case While(c, b) =>
      KeptAll(o, b);
      if DropsBody(o, c, b) { NothingHidden(b); }
    case DoWhile(b, _) => KeptAll(o, b);
    case For(_, c, _, b) =>
      KeptAll(o, b);
      if DropsBody(o, c, b) { NothingHidden(b); }
    case Switch(_, b, _) =>
      KeptAll(o, b);
      if !ContainsLabel(b) { NothingHidden(b); }
    case _ =>
  }

  lemma {:induction false} KeptAllSeq(o: Oracles, ss: seq<Stmt>)
    requires LabelsShowSeq(ss)
    ensures KeptSeq(o, ss) == AllLabelsSeq(ss)
    decreases ss, 0
  {
    if ss != [] {
      KeptAll(o, ss[0]);
      KeptAllSeq(o, ss[1..]);
    }
  }

  /** The labels in a switch's list are labels of its body. */
  lemma ListedInBody(sem: Sem, labels: seq<CaseLabel>, b: Stmt)
    requires LabelsAgree(sem, labels, OwnLabels(b))
    ensures forall l :: l in labels ==> l.id in AllLabels(b)
    ensures labels != [] ==> AllLabels(b) != {}
  {
    if labels != [] {
      assert labels[0] in OwnLabels(b);
      OwnLabelsIn(b, labels[0]);
    }
    forall l | l in labels ensures l.id in AllLabels(b) {
      assert l in OwnLabels(b);
      OwnLabelsIn(b, l);
    }
  }

  /** Every jump finds its label. */
  lemma {:induction false} JumpsFind(sem: Sem, o: Oracles, L: set<Id>, s: Stmt, brk: bool, cnt: bool)
    requires Static(sem, s, brk, cnt) && LabelsShow(s) && GotoTargets(s) <= L
    ensures JumpsKept(o, L, s)
    decreases s, 1
  {
    match s
    case Label(_, b) => JumpsFind(sem, o, L, b, brk, cnt);
    case Case(_, _, b) => JumpsFind(sem, o, L, b, brk, cnt);
    case Default(_, b) => JumpsFind(sem, o, L, b, brk, cnt);
    case Block(ss) => JumpsFindSeq(sem, o, L, ss, brk, cnt);
    case If(_, _, t, e) =>
      JumpsFind(sem, o, L, t, brk, cnt);
      if e.Some? { JumpsFind(sem, o, L, e.value, brk, cnt); }
    case While(_, b) => JumpsFind(sem, o, L, b, true, true);
    case DoWhile(b, _) => JumpsFind(sem, o, L, b, true, true);
    case For(_, _, _, b) => JumpsFind(sem, o, L, b, true, true);
    case Switch(_, b, labels) =>
      JumpsFind(sem, o, L, b, true, cnt);
      ListedInBody(sem, labels, b);
      KeptAll(o, b);
      if !ContainsLabel(b) {
        NothingHidden(b);
      }
    case _ =>
  }

  lemma {:induction false} JumpsFindSeq(sem: Sem, o: Oracles, L: set<Id>, ss: seq<Stmt>, brk: bool, cnt: bool)
    requires StaticSeq(sem, ss, brk, cnt) && LabelsShowSeq(ss) && GotoTargetsSeq(ss) <= L
    ensures JumpsKeptSeq(o, L, ss)
    decreases ss, 0
  {
    if ss != [] {
      JumpsFind(sem, o, L, ss[0], brk, cnt);
      JumpsFindSeq(sem, o, L, ss[1..], brk, cnt);
    }
  }

  /**
    The main result under a condition on the tree alone, with nothing of the pass in it: every branch, loop body and
    switch body that holds a label shows one through blocks, and every goto names a label of the function.
   */
  lemma ShownLabelsSuffice(sem: Sem, o: Oracles, fn: seq<Stmt>, n: Id, st: Store, out: Outcome)
    requires OraclesSound(sem, o) && WellFormedFunction(sem, fn, n)
    requires LabelsShowSeq(fn) && GotoTargetsSeq(fn) <= AllLabelsSeq(fn)
    ensures Ends(sem, fn, st, out) <==> FlatEnds(sem, LowerFunction(o, fn, n).cells, n, st, out)
  {
    KeptAllSeq(o, fn);
    JumpsFindSeq(sem, o, KeptSeq(o, fn), fn, false, false);
    LoweringPreservesMeaning(sem, o, fn, n, st, out);
  }

  // ----- A switch whose case is visible -----

  /** `switch (e) { case k: return; }` */
  function ShownCase(e: Expr, k: Expr): seq<Stmt> {
    [Switch(e, Block([Case(0, k, Return(1, None))]), [CaseLabel(0, k)])]
  }

  lemma ShownCaseStatic(sem: Sem, e: Expr, k: Expr)
    requires PureCase(sem, CaseLabel(0, k))
    ensures WellFormedFunction(sem, ShownCase(e, k), 2)
    ensures LabelsShowSeq(ShownCase(e, k)) && GotoTargetsSeq(ShownCase(e, k)) == {}
    ensures OwnLabels(ShownCase(e, k)[0].body) == [CaseLabel(0, k)]
  {
    var leaf := Return(1, None);
    var inner := Case(0, k, leaf);
    var body := Block([inner]);
    assert [inner][1..] == [] && ShownCase(e, k)[1..] == [];
    assert OwnLabels(leaf) == [] && OwnLabels(inner) == [CaseLabel(0, k)] && OwnLabelsSeq([]) == [];
    assert OwnLabelsSeq([inner]) == [CaseLabel(0, k)];
    assert NodeIds(leaf) == {1} && NodeIds(inner) == {0, 1} && NodeIdsSeq([]) == {} && NodeIdsSeq([inner]) == {0, 1};
    assert AllLabels(leaf) == {} && AllLabels(inner) == {0} && AllLabelsSeq([]) == {} && AllLabelsSeq([inner]) == {0};
    assert Visible(inner) == {0} + Visible(leaf) && VisibleSeq([inner]) == Visible(inner) + VisibleSeq([]);
    assert DistinctIds(leaf) && DistinctIds(inner) && DistinctIdsSeq([]) && DistinctIdsSeq([inner]);
    assert Static(sem, leaf, true, false) && Static(sem, inner, true, false) && StaticSeq(sem, [], true, false);
    assert StaticSeq(sem, [inner], true, false) && StaticSeq(sem, [], false, false);
    assert LabelsShow(leaf) && LabelsShow(inner) && LabelsShowSeq([]) && LabelsShowSeq([inner]);
    assert GotoTargets(inner) == GotoTargets(leaf) && GotoTargetsSeq([]) == {} && GotoTargetsSeq([inner]) == {};
    assert OwnLabels(body) == [CaseLabel(0, k)] && NodeIds(body) == {0, 1} && AllLabels(body) == {0};
    assert Visible(body) == {0} && DistinctIds(body) && Static(sem, body, true, false) && LabelsShow(body);
    var s := ShownCase(e, k)[0];
    assert NodeIds(s) == {0, 1} && AllLabels(s) == {0} && DistinctIds(s) && LabelsShow(s) && GotoTargets(s) == {};
    assert Static(sem, s, false, false);
    assert NodeIdsSeq([s]) == {0, 1} && DistinctIdsSeq([s]);
  }

  /** The list enters the body at the case and returns from there. */
  lemma ShownCaseEntered(sem: Sem, o: Oracles, e: Expr, k: Expr, st: Store)
    requires OraclesSound(sem, o) && PureCase(sem, CaseLabel(0, k))
    requires sem.eval(e, st).Value? && ULong(sem.eval(e, st).v) == ULong(sem.caseValue(k))
    ensures FlatEnds(sem, LowerFunction(o, ShownCase(e, k), 2).cells, 2, st, Returned(None, sem.eval(e, st).st))
  {
    var fn, st' := ShownCase(e, k), sem.eval(e, st).st;
    var rest := KSeq([], KStop);
    var leaf := Return(1, None);
    var inner := Case(0, k, leaf);
    var body := Block([inner]);
    ShownCaseStatic(sem, e, k);
    assert fn[1..] == [] && [inner][1..] == [];
    var after := KSeq([], KSwitch(rest));
    assert FindLabelSeq([inner], 0, KSwitch(rest)) == Some((inner, after));
    var s := Next(KSeq(fn, KStop), st);
    var s1, s2, s3 := Run(fn[0], rest, st), Run(inner, after, st'), Run(leaf, after, st');
    assert Step(sem, fn, s) == s1;
    assert Step(sem, fn, s1) == s2;
    assert Step(sem, fn, s2) == s3;
    assert Steps(sem, fn, s3, 1) == Done(Returned(None, st'));
    assert Steps(sem, fn, s2, 2) == Done(Returned(None, st'));
    assert Steps(sem, fn, s1, 3) == Done(Returned(None, st'));
    assert Steps(sem, fn, s, 4) == Done(Returned(None, st'));
    ShownLabelsSuffice(sem, o, fn, 2, st, Returned(None, st'));
  }

  // ----- What folding leaves -----

  /** Code without a test: what a condition leaves that is constant and whose value does not matter. */
  ghost predicate Vanishes(o: Oracles, c: Expr) {
    o.isConst(c) && o.isMeanless(c)
  }

  /** Around parts without labels such conditions leave no node: no test, no branch, and nothing of what cannot run. */
  lemma FoldedShapes(o: Oracles, c: Expr, t: Stmt, e: Option<Stmt>, id: Id, n: Id, x: Ctx)
    requires Vanishes(o, c) && AllLabels(t) == {} && (e.Some? ==> AllLabels(e.value) == {})
    ensures o.isTrue(c) ==> Lower(o, If(id, c, t, e), n, x) == Lower(o, t, n, x)
    ensures !o.isTrue(c) ==> Lower(o, If(id, c, t, e), n, x) == if e.Some? then Lower(o, e.value, n, x) else Code([], n)
    ensures !o.isTrue(c) ==> Lower(o, While(c, t), n, x) == Code([], n)
    ensures !o.isTrue(c) ==> Lower(o, For(c, c, c, t), n, x) == Code([], n)
    ensures o.isTrue(c) ==>
      var b := Lower(o, t, n + 2, Ctx(Some(n + 1), Some(n), x.rp));
      Lower(o, While(c, t), n, x) ==
      Code([Cell(n, NPesudo)] + b.cells + [Cell(b.n, NJump(Some(n))), Cell(n + 1, NPesudo)], b.n + 1)
    ensures !o.isTrue(c) ==>
      var b := Lower(o, t, n + 2, Ctx(Some(n + 1), Some(n), x.rp));
      Lower(o, DoWhile(t, c), n, x) == Code(b.cells + [Cell(n, NPesudo), Cell(n + 1, NPesudo)], b.n)
  {
    VisibleAreLabels(t);
    ContainsLabelExactly(t);
    if e.Some? {
      VisibleAreLabels(e.value);
      ContainsLabelExactly(e.value);
    }
    assert [Cell(n, NPesudo)] + [] == [Cell(n, NPesudo)];
    var b := Lower(o, t, n + 2, Ctx(Some(n + 1), Some(n), x.rp)).cells;
    assert b + [Cell(n, NPesudo)] + [] + [Cell(n + 1, NPesudo)] == b + [Cell(n, NPesudo), Cell(n + 1, NPesudo)];
  }
}
