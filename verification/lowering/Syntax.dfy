/**
  Statement trees as the parser hands them to the lowering pass, and the flat
  list of nodes the pass produces. Every tree node that can end up in the flat
  list carries its identity (`id`), the model of its address.
 */
module Syntax {
  import opened Wrappers

  /** The identity of a statement node (or of a selector symbol). */
  type Id = nat

  /** An expression tree; only its evaluation and three oracles matter here. */
  type Expr(==, !new)

  /** One entry of a switch statement's label list. */
  datatype CaseLabel = CaseLabel(id: Id, e: Expr) | DefaultLabel(id: Id)

  datatype Stmt =
    | Dec(inits: seq<Option<Expr>>)          // one entry a declared symbol
    | Exp(id: Id, e: Expr)
    | Label(id: Id, body: Stmt)
    | Case(id: Id, e: Expr, body: Stmt)
    | Default(id: Id, body: Stmt)
    | Block(stmts: seq<Stmt>)
    | If(id: Id, cond: Expr, thn: Stmt, els: Option<Stmt>)
    | Goto(id: Id, target: Id)               // target: the label's node
    | Return(id: Id, result: Option<Expr>)
    | While(cond: Expr, body: Stmt)
    | DoWhile(body: Stmt, cond: Expr)
    | For(init: Expr, cond: Expr, inc: Expr, body: Stmt)
    | Switch(e: Expr, body: Stmt, labels: seq<CaseLabel>)
    | Break(id: Id)
    | Continue(id: Id)

  /** Expressions of the flat list: the program's own, and the two built for a switch. */
  datatype FlatExpr =
    | Plain(e: Expr)
    | SetSelector(sym: Id, e: Expr)          // selector = e
    | SelectorIs(sym: Id, e: Expr)           // selector == e

  datatype Node =
    | NExpr(fe: FlatExpr)
    | NBranch(fe: FlatExpr, onTrue: Option<Id>, onFalse: Option<Id>)
    | NJump(target: Option<Id>)
    | NPesudo
    | NLabel(stmt: Option<Id>)
    | NCase(e: Expr, stmt: Option<Id>)
    | NDefault(stmt: Option<Id>)
    | NGoto(target: Option<Id>)
    | NReturn(result: Option<Expr>, target: Option<Id>)
    | NBreak(target: Option<Id>)
    | NContinue(target: Option<Id>)

  datatype Cell = Cell(id: Id, node: Node)

  /** What the pass asks about an expression. */
  datatype Oracles = Oracles(isConst: Expr -> bool, isTrue: Expr -> bool, isMeanless: Expr -> bool)

  /** Whether a statement is labelled, looking through blocks only. */
  predicate ContainsLabel(s: Stmt)
  {
    match s
    case Label(_, _) => true
    case Case(_, _, _) => true
    case Default(_, _) => true
    case Block(ss) => exists i | 0 <= i < |ss| :: ContainsLabel(ss[i])
    case _ => false
  }

  /** The else branch may be absent, which counts as unlabelled. */
  predicate OptContainsLabel(s: Option<Stmt>) {
    s.Some? && ContainsLabel(s.value)
  }

  /** The identities of all labels in a statement, at any depth. */
  function AllLabels(s: Stmt): set<Id>
    decreases s, 1
  {
    match s
    case Label(id, b) => {id} + AllLabels(b)
    case Case(id, _, b) => {id} + AllLabels(b)
    case Default(id, b) => {id} + AllLabels(b)
    case Block(ss) => AllLabelsSeq(ss)
    case If(_, _, t, e) => AllLabels(t) + if e.Some? then AllLabels(e.value) else {}
    case While(_, b) => AllLabels(b)
    case DoWhile(b, _) => AllLabels(b)
    case For(_, _, _, b) => AllLabels(b)
    case Switch(_, b, _) => AllLabels(b)
    case _ => {}
  }

  function AllLabelsSeq(ss: seq<Stmt>): set<Id>
    decreases ss, 0
  {
    if ss == [] then {} else AllLabels(ss[0]) + AllLabelsSeq(ss[1..])
  }

  /** The case and default labels that belong to a switch with this body, in source order. */
  function OwnLabels(s: Stmt): seq<CaseLabel>
    decreases s, 1
  {
    match s
    case Label(_, b) => OwnLabels(b)
    case Case(id, e, b) => [CaseLabel(id, e)] + OwnLabels(b)
    case Default(id, b) => [DefaultLabel(id)] + OwnLabels(b)
    case Block(ss) => OwnLabelsSeq(ss)
    case If(_, _, t, e) => OwnLabels(t) + if e.Some? then OwnLabels(e.value) else []
    case While(_, b) => OwnLabels(b)
    case DoWhile(b, _) => OwnLabels(b)
    case For(_, _, _, b) => OwnLabels(b)
    case _ => []
  }

  function OwnLabelsSeq(ss: seq<Stmt>): seq<CaseLabel>
    decreases ss, 0
  {
    if ss == [] then [] else OwnLabels(ss[0]) + OwnLabelsSeq(ss[1..])
  }

  /** The identities of the tree nodes that can be placed in the flat list. */
  function NodeIds(s: Stmt): set<Id>
    decreases s, 1
  {
    match s
    case Dec(_) => {}
    case Exp(id, _) => {id}
    case Label(id, b) => {id} + NodeIds(b)
    case Case(id, _, b) => {id} + NodeIds(b)
    case Default(id, b) => {id} + NodeIds(b)
    case Block(ss) => NodeIdsSeq(ss)
    case If(id, _, t, e) => {id} + NodeIds(t) + if e.Some? then NodeIds(e.value) else {}
    case Goto(id, _) => {id}
    case Return(id, _) => {id}
    case While(_, b) => NodeIds(b)
    case DoWhile(b, _) => NodeIds(b)
    case For(_, _, _, b) => NodeIds(b)
    case Switch(_, b, _) => NodeIds(b)
    case Break(id) => {id}
    case Continue(id) => {id}
  }

  function NodeIdsSeq(ss: seq<Stmt>): set<Id>
    decreases ss, 0
  {
    if ss == [] then {} else NodeIds(ss[0]) + NodeIdsSeq(ss[1..])
  }

  /** No two tree nodes share an identity. */
  predicate DistinctIds(s: Stmt)
    decreases s, 1
  {
    match s
    case Label(id, b) => id !in NodeIds(b) && DistinctIds(b)
    case Case(id, _, b) => id !in NodeIds(b) && DistinctIds(b)
    case Default(id, b) => id !in NodeIds(b) && DistinctIds(b)
    case Block(ss) => DistinctIdsSeq(ss)
    case If(id, _, t, e) =>
      && id !in NodeIds(t)
      && DistinctIds(t)
      && (e.Some? ==> id !in NodeIds(e.value) && NodeIds(t) !! NodeIds(e.value) && DistinctIds(e.value))
    case While(_, b) => DistinctIds(b)
    case DoWhile(b, _) => DistinctIds(b)
    case For(_, _, _, b) => DistinctIds(b)
    case Switch(_, b, _) => DistinctIds(b)
    case _ => true
  }

  predicate DistinctIdsSeq(ss: seq<Stmt>)
    decreases ss, 0
  {
    ss != [] ==> DistinctIds(ss[0]) && NodeIds(ss[0]) !! NodeIdsSeq(ss[1..]) && DistinctIdsSeq(ss[1..])
  }
}
