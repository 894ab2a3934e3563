/**
  The lowering pass as a function: which cells each statement appends to the
  flat list, and which identities it hands out on the way. `n` is the next
  identity the node allocator will return.
 */
module Lowering {
  import opened Wrappers
  import opened Syntax

  /** The break, continue and return points passed down; a break or continue point may be absent. */
  datatype Ctx = Ctx(bp: Option<Id>, cp: Option<Id>, rp: Id)

  /** Appended cells, and the allocator's next identity afterwards. */
  datatype Code = Code(cells: seq<Cell>, n: Id)

  function First(cells: seq<Cell>): Option<Id> {
    if cells == [] then None else Some(cells[0].id)
  }

  /** A statement node for `e`, unless dropping it is unobservable. */
  function OptExpr(o: Oracles, e: Expr, n: Id): Code {
    if o.isMeanless(e) then Code([], n) else Code([Cell(n, NExpr(Plain(e)))], n + 1)
  }

  predicate FoldsIf(o: Oracles, c: Expr, t: Stmt, e: Option<Stmt>) {
    o.isConst(c) && !ContainsLabel(t) && !OptContainsLabel(e)
  }

  predicate FoldsLoop(o: Oracles, c: Expr, b: Stmt) {
    o.isConst(c) && !ContainsLabel(b)
  }

  /** A loop on a false constant loses its body. */
  predicate DropsBody(o: Oracles, c: Expr, b: Stmt) {
    FoldsLoop(o, c, b) && !o.isTrue(c)
  }

  function LowerDec(inits: seq<Option<Expr>>, n: Id): Code {
    if inits == [] then Code([], n)
    else if inits[0].None? then LowerDec(inits[1..], n)
    else
      var r := LowerDec(inits[1..], n + 1);
      Code([Cell(n, NExpr(Plain(inits[0].value)))] + r.cells, r.n)
  }

  function Lower(o: Oracles, s: Stmt, n: Id, x: Ctx): Code
    decreases s, 1
  {
    match s
    case Dec(inits) => LowerDec(inits, n)
    case Exp(id, e) => Code([Cell(id, NExpr(Plain(e)))], n)
    case Label(id, b) =>
      var r := Lower(o, b, n, x);
      Code([Cell(id, NLabel(First(r.cells)))] + r.cells, r.n)
    case Case(id, e, b) =>
      var r := Lower(o, b, n, x);
      Code([Cell(id, NCase(e, First(r.cells)))] + r.cells, r.n)
    case Default(id, b) =>
      var r := Lower(o, b, n, x);
      Code([Cell(id, NDefault(First(r.cells)))] + r.cells, r.n)
    case Block(ss) => LowerSeq(o, ss, n, x)
    case If(id, c, t, e) =>
      if FoldsIf(o, c, t, e) then
        var pre := OptExpr(o, c, n);
        if o.isTrue(c) then
          var r := Lower(o, t, pre.n, x);
          Code(pre.cells + r.cells, r.n)
        else if e.Some? then
          var r := Lower(o, e.value, pre.n, x);
          Code(pre.cells + r.cells, r.n)
        else
          pre
      else
        var T := Lower(o, t, n, x);
        var F := if e.Some? then Lower(o, e.value, T.n, x) else Code([], T.n);
        JoinIf(id, c, T.cells, F.cells, F.n)
    case Goto(id, target) => Code([Cell(id, NGoto(Some(target)))], n)
    case Return(id, e) => Code([Cell(id, NReturn(e, Some(x.rp)))], n)
    case While(c, b) =>
      if DropsBody(o, c, b) then OptExpr(o, c, n)
      else if FoldsLoop(o, c, b) then
        var pre := OptExpr(o, c, n + 1);
        var B := Lower(o, b, pre.n + 1, Ctx(Some(pre.n), Some(n), x.rp));
        CloseLoop([Cell(n, NPesudo)] + pre.cells, B.cells, n, pre.n, B.n)
      else
        var B := Lower(o, b, n + 3, Ctx(Some(n + 2), Some(n), x.rp));
        CloseLoop(TestedHead(n, n + 1, c, B.cells, n + 2), B.cells, n, n + 2, B.n)
    case DoWhile(b, c) =>
      var B := Lower(o, b, n + 2, Ctx(Some(n + 1), Some(n), x.rp));
      FinishDo(o, c, FoldsLoop(o, c, b), B, n)
    case For(i, c, inc, b) =>
      var I := OptExpr(o, i, n);
      var L := LowerForTest(o, c, inc, b, I.n, x);
      Code(I.cells + L.cells, L.n)
    case Switch(e, b, labels) =>
      var assign := [Cell(n + 1, NExpr(SetSelector(n, e)))];
      if !ContainsLabel(b) then Code(assign, n + 2)
      else
        var chain := Chain(labels, n, DefaultTarget(labels, n + 2), n + 3);
        var B := Lower(o, b, chain.n, Ctx(Some(n + 2), x.cp, x.rp));
        Code(assign + chain.cells + B.cells + [Cell(n + 2, NPesudo)], B.n)
    case Break(id) => Code([Cell(id, NBreak(x.bp))], n)
    case Continue(id) => Code([Cell(id, NContinue(x.cp))], n)
  }

  function LowerSeq(o: Oracles, ss: seq<Stmt>, n: Id, x: Ctx): Code
    decreases ss, 0
  {
    if ss == [] then Code([], n)
    else
      var a := Lower(o, ss[0], n, x);
      var b := LowerSeq(o, ss[1..], a.n, x);
      Code(a.cells + b.cells, b.n)
  }

  /** The four shapes of a conditional, from its lowered branches. */
  function JoinIf(id: Id, c: Expr, T: seq<Cell>, F: seq<Cell>, n: Id): Code {
    if T == [] && F == [] then
      Code([Cell(n, NExpr(Plain(c)))], n + 1)
    else if T == [] then
      Code([Cell(id, NBranch(Plain(c), Some(n + 1), First(F))), Cell(n + 1, NJump(Some(n)))]
           + F + [Cell(n, NPesudo)], n + 2)
    else if F == [] then
      Code([Cell(id, NBranch(Plain(c), First(T), Some(n)))] + T + [Cell(n, NPesudo)], n + 1)
    else
      Code([Cell(id, NBranch(Plain(c), First(T), First(F)))] + T + [Cell(n + 1, NJump(Some(n)))]
           + F + [Cell(n, NPesudo)], n + 2)
  }

  /** A loop's last code, the jump back to `top`, and the break point. */
  function CloseLoop(head: seq<Cell>, last: seq<Cell>, top: Id, bp: Id, n: Id): Code {
    Code(head + last + [Cell(n, NJump(Some(top))), Cell(bp, NPesudo)], n + 1)
  }

  /** The top of a loop that tests before its body. */
  function TestedHead(top: Id, branch: Id, c: Expr, B: seq<Cell>, bp: Id): seq<Cell> {
    [Cell(top, NPesudo), Cell(branch, NBranch(Plain(c), First(B), Some(bp)))]
  }

  /** The three shapes of a do statement, from its body lowered with continue point `n` and break point `n + 1`. */
  function FinishDo(o: Oracles, c: Expr, folds: bool, B: Code, n: Id): Code {
    if folds && !o.isTrue(c) then
      var pre := OptExpr(o, c, B.n);
      Code(B.cells + [Cell(n, NPesudo)] + pre.cells + [Cell(n + 1, NPesudo)], pre.n)
    else if folds then
      var pre := OptExpr(o, c, B.n + 1);
      CloseLoop([Cell(B.n, NPesudo)] + B.cells + [Cell(n, NPesudo)], pre.cells, B.n, n + 1, pre.n)
    else
      Code([Cell(B.n, NPesudo)] + B.cells + [Cell(n, NPesudo)]
           + [Cell(B.n + 1, NBranch(Plain(c), Some(B.n), Some(n + 1))), Cell(n + 1, NPesudo)], B.n + 2)
  }

  /** A for loop from its top, its lowered body, and its last clause. */
  function FinishFor(o: Oracles, head: seq<Cell>, B: Code, inc: Expr, top: Id, cp: Id, bp: Id): Code {
    var post := OptExpr(o, inc, B.n);
    CloseLoop(head + B.cells + [Cell(cp, NPesudo)], post.cells, top, bp, post.n)
  }

  /** A for statement after its first clause. */
  function LowerForTest(o: Oracles, c: Expr, inc: Expr, b: Stmt, n: Id, x: Ctx): Code
    decreases b, 2
  {
    if DropsBody(o, c, b) then OptExpr(o, c, n)
    else if FoldsLoop(o, c, b) then
      var pre := OptExpr(o, c, n + 2);
      var B := Lower(o, b, pre.n + 1, Ctx(Some(pre.n), Some(n + 1), x.rp));
      FinishFor(o, [Cell(n, NPesudo)] + pre.cells, B, inc, n, n + 1, pre.n)
    else
      var B := Lower(o, b, n + 4, Ctx(Some(n + 3), Some(n + 1), x.rp));
      FinishFor(o, TestedHead(n, n + 2, c, B.cells, n + 3), B, inc, n, n + 1, n + 3)
  }

  /** Where an unmatched selector goes: the last default in the list, else the break point. */
  function DefaultTarget(labels: seq<CaseLabel>, t: Id): Id {
    if labels == [] then t
    else DefaultTarget(labels[1..], if labels[0].DefaultLabel? then labels[0].id else t)
  }

  /** The compare chain of a switch: a branch and a jump for each case, then the default jump. */
  function Chain(labels: seq<CaseLabel>, sym: Id, dflt: Id, n: Id): (r: Code)
    ensures r.cells != []
  {
    if labels == [] then Code([Cell(n, NJump(Some(dflt)))], n + 1)
    else if labels[0].DefaultLabel? then Chain(labels[1..], sym, dflt, n)
    else
      var r := Chain(labels[1..], sym, dflt, n + 2);
      Code([Cell(n + 1, NBranch(SelectorIs(sym, labels[0].e), Some(n), First(r.cells))),
            Cell(n, NJump(Some(labels[0].id)))] + r.cells, r.n)
  }

  /** A function's body, lowered with return point `n` and no break or continue point. */
  function LowerFunction(o: Oracles, body: seq<Stmt>, n: Id): Code {
    LowerSeq(o, body, n + 1, Ctx(None, None, n))
  }
}
