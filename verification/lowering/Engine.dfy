/**
  The pass as it runs: nodes come from a slab that can run out, are linked into
  lists, and have their targets filled in once the code they point at is known.
  Each method is proved against the function it computes.
 */
module Engine {
  import opened Wrappers
  import opened Syntax
  import opened Lowering
  import opened FlatLayout

  datatype Error = AllocFailed | PrepareFailed

  /** The identities of a list's nodes, in order. */
  function IdsOf(cells: seq<Cell>): seq<Id>
    decreases cells
  {
    if cells == [] then [] else [cells[0].id] + IdsOf(cells[1..])
  }

  /** The node store after writing `cells` to it, one after the other. */
  function Put(m: map<Id, Node>, cells: seq<Cell>): map<Id, Node>
    decreases cells
  {
    if cells == [] then m else Put(m[cells[0].id := cells[0].node], cells[1..])
  }

  lemma {:induction false} IdsAppend(a: seq<Cell>, b: seq<Cell>)
    ensures IdsOf(a + b) == IdsOf(a) + IdsOf(b)
  {
    if a == [] { assert a + b == b; }
    else {
      IdsAppend(a[1..], b);
      assert (a + b)[1..] == a[1..] + b;
    }
  }

  lemma {:induction false} PutAppend(m: map<Id, Node>, a: seq<Cell>, b: seq<Cell>)
    ensures Put(m, a + b) == Put(Put(m, a), b)
    decreases a
  {
    if a == [] { assert a + b == b; }
    else {
      PutAppend(m[a[0].id := a[0].node], a[1..], b);
      assert (a + b)[1..] == a[1..] + b;
    }
  }

  /** A node outside `cells` can be written before or after them. */
  lemma {:induction false} PutSwap(m: map<Id, Node>, cells: seq<Cell>, id: Id, v: Node)
    requires Count(cells, id) == 0
    ensures Put(m[id := v], cells) == Put(m, cells)[id := v]
    decreases cells
  {
    if cells != [] {
      var c := cells[0];
      assert m[id := v][c.id := c.node] == m[c.id := c.node][id := v];
      PutSwap(m[c.id := c.node], cells[1..], id, v);
    }
  }

  lemma PutOne(m: map<Id, Node>, c: Cell)
    ensures Put(m, [c]) == m[c.id := c.node] && IdsOf([c]) == [c.id]
  {
    assert [c][1..] == [];
    assert Put(m[c.id := c.node], []) == m[c.id := c.node] && IdsOf([]) == [];
  }

  lemma PutTwo(m: map<Id, Node>, c: Cell, d: Cell)
    ensures Put(m, [c]) == m[c.id := c.node] && IdsOf([c]) == [c.id]
    ensures Put(m, [c, d]) == m[c.id := c.node][d.id := d.node] && IdsOf([c, d]) == [c.id, d.id]
  {
    assert [c, d][1..] == [d];
    PutOne(m, c);
    PutOne(m[c.id := c.node], d);
  }

  /** Writing a head, then code, then two more cells. */
  lemma PutAround(m: map<Id, Node>, head: seq<Cell>, B: seq<Cell>, c: Cell, d: Cell)
    ensures Put(m, head + B + [c, d]) == Put(Put(m, head), B)[c.id := c.node][d.id := d.node]
    ensures IdsOf(head + B + [c, d]) == IdsOf(head) + IdsOf(B) + [c.id, d.id]
    ensures Put(m, head + B + [c]) == Put(Put(m, head), B)[c.id := c.node]
    ensures IdsOf(head + B + [c]) == IdsOf(head) + IdsOf(B) + [c.id]
  {
    PutAppend(m, head + B, [c, d]);
    PutAppend(m, head + B, [c]);
    PutAppend(m, head, B);
    PutTwo(Put(Put(m, head), B), c, d);
    IdsAppend(head + B, [c, d]);
    IdsAppend(head + B, [c]);
    IdsAppend(head, B);
  }

  lemma {:induction false} IfGrows(o: Oracles, id: Id, c: Expr, t: Stmt, e: Option<Stmt>, n: Id, x: Ctx)
    requires Lower(o, t, OptExpr(o, c, n).n, x).n >= n && Lower(o, t, n, x).n >= n
    requires e.Some? ==>
      Lower(o, e.value, OptExpr(o, c, n).n, x).n >= n && Lower(o, e.value, Lower(o, t, n, x).n, x).n >= n
    ensures Lower(o, If(id, c, t, e), n, x).n >= n
  {
  }

  lemma {:induction false} ForGrows(o: Oracles, i: Expr, c: Expr, inc: Expr, b: Stmt, n: Id, x: Ctx)
    requires var I := OptExpr(o, i, n).n; var pre := OptExpr(o, c, I + 2).n;
             && Lower(o, b, pre + 1, Ctx(Some(pre), Some(I + 1), x.rp)).n >= n
             && Lower(o, b, I + 4, Ctx(Some(I + 3), Some(I + 1), x.rp)).n >= n
    ensures Lower(o, For(i, c, inc, b), n, x).n >= n
  {
  }

  /** The pass hands out identities upwards. */
  lemma {:induction false} LowerGrows(o: Oracles, s: Stmt, n: Id, x: Ctx)
    ensures Lower(o, s, n, x).n >= n
    decreases s, 1
  {
    match s
    case Dec(inits) => LowerDecIds(inits, n, 0);
    case Label(_, b) => LowerGrows(o, b, n, x);
    case Case(_, _, b) => LowerGrows(o, b, n, x);
    case Default(_, b) => LowerGrows(o, b, n, x);
    case Block(ss) => LowerSeqGrows(o, ss, n, x);
    case If(id, c, t, e) =>
      var pre := OptExpr(o, c, n).n;
      LowerGrows(o, t, pre, x);
      LowerGrows(o, t, n, x);
      if e.Some? {
        LowerGrows(o, e.value, pre, x);
        LowerGrows(o, e.value, Lower(o, t, n, x).n, x);
      }
      IfGrows(o, id, c, t, e, n, x);
    case While(c, b) =>
      var pre := OptExpr(o, c, n + 1).n;
      LowerGrows(o, b, pre + 1, Ctx(Some(pre), Some(n), x.rp));
      LowerGrows(o, b, n + 3, Ctx(Some(n + 2), Some(n), x.rp));
    case DoWhile(b, c) =>
      LowerGrows(o, b, n + 2, Ctx(Some(n + 1), Some(n), x.rp));
    case For(i, c, inc, b) =>
      var I := OptExpr(o, i, n).n;
      var pre := OptExpr(o, c, I + 2).n;
      LowerGrows(o, b, pre + 1, Ctx(Some(pre), Some(I + 1), x.rp));
      LowerGrows(o, b, I + 4, Ctx(Some(I + 3), Some(I + 1), x.rp));
      ForGrows(o, i, c, inc, b, n, x);
    case Switch(_, b, labels) =>
      var chain := Chain(labels, n, DefaultTarget(labels, n + 2), n + 3);
      ChainIds(labels, n, DefaultTarget(labels, n + 2), n + 3, 0);
      LowerGrows(o, b, chain.n, Ctx(Some(n + 2), x.cp, x.rp));
    case _ =>
  }

  lemma {:induction false} LowerSeqGrows(o: Oracles, ss: seq<Stmt>, n: Id, x: Ctx)
    ensures LowerSeq(o, ss, n, x).n >= n
    decreases ss, 0
  {
    if ss != [] {
      LowerGrows(o, ss[0], n, x);
      LowerSeqGrows(o, ss[1..], Lower(o, ss[0], n, x).n, x);
    }
  }

  /** What the pass asserts of its input: filled blocks and declarations, and a point for each break and continue. */
  predicate Asserted(s: Stmt, brk: bool, cnt: bool)
    decreases s, 1
  {
    match s
    case Dec(inits) => inits != []
    case Label(_, b) => Asserted(b, brk, cnt)
    case Case(_, _, b) => Asserted(b, brk, cnt)
    case Default(_, b) => Asserted(b, brk, cnt)
    case Block(ss) => ss != [] && AssertedSeq(ss, brk, cnt)
    case If(_, _, t, e) => Asserted(t, brk, cnt) && (e.Some? ==> Asserted(e.value, brk, cnt))
    case While(_, b) => Asserted(b, true, true)
    case DoWhile(b, _) => Asserted(b, true, true)
    case For(_, _, _, b) => Asserted(b, true, true)
    case Switch(_, b, _) => Asserted(b, true, cnt)
    case Break(_) => brk
    case Continue(_) => cnt
    case _ => true
  }

  predicate AssertedSeq(ss: seq<Stmt>, brk: bool, cnt: bool)
    decreases ss, 0
  {
    ss != [] ==> Asserted(ss[0], brk, cnt) && AssertedSeq(ss[1..], brk, cnt)
  }

  /** A tree ready to be lowered from identity `n` on. */
  ghost predicate Ready(s: Stmt, n: Id, x: Ctx) {
    DistinctIds(s) && Below(NodeIds(s), n) && Asserted(s, x.bp.Some?, x.cp.Some?)
  }

  /** A statement list, by the identities of its nodes. */
  class StmtList {
    var items: seq<Id>

    constructor ()
      ensures items == []
    {
      items := [];
    }

    method InsertTail(id: Id)
      modifies this
      ensures items == old(items) + [id]
    {
      items := items + [id];
    }

    /** Moves all of `other`'s nodes to the end of this list. */
    method Concat(other: StmtList)
      requires other != this
      modifies this, other
      ensures items == old(items) + old(other.items) && other.items == []
    {
      items := items + other.items;
      other.items := [];
    }

    function First(): Option<Id>
      reads this
    {
      if items == [] then None else Some(items[0])
    }
  }

  class Lowerer {
    const o: Oracles
    var next: Id              // the next identity
    var left: nat             // how many more the slab can hand out
    var nodes: map<Id, Node>  // what each placed node holds
    var error: Option<Error>

    constructor (o: Oracles, next: Id, left: nat)
      ensures this.o == o && this.next == next && this.left == left && nodes == map[] && error == None
    {
      this.o, this.next, this.left, nodes, error := o, next, left, map[], None;
    }

    /** What a method did: on success the code appended and written, the identities used up; on failure an error. */
    twostate predicate Did(ok: bool, code: Code, list: StmtList)
      reads this, list
    {
      && (ok <==> code.n <= old(next) + old(left))
      && (ok ==>
            && list.items == old(list.items) + IdsOf(code.cells)
            && nodes == Put(old(nodes), code.cells)
            && next == code.n
            && next + left == old(next) + old(left)
            && error == old(error))
      && (!ok ==> error.Some?)
    }

    /** Allocates a node holding `node`. */
    method Alloc(node: Node) returns (id: Id, ok: bool)
      modifies this
      ensures ok <==> old(left) > 0
      ensures ok ==> id == old(next) && next == id + 1 && left == old(left) - 1
                     && nodes == old(nodes)[id := node] && error == old(error)
      ensures !ok ==> error.Some?
    {
      id := next;
      ok := left > 0;
      if ok {
        next, left, nodes := next + 1, left - 1, nodes[next := node];
      } else {
        error := Some(AllocFailed);
      }
    }

    /** Allocates a node and appends it. */
    method AllocAppend(node: Node, list: StmtList) returns (id: Id, ok: bool)
      modifies this, list
      ensures ok <==> old(left) > 0
      ensures ok ==> id == old(next) && next == id + 1 && left == old(left) - 1
                     && nodes == old(nodes)[id := node] && error == old(error) && list.items == old(list.items) + [id]
      ensures !ok ==> error.Some?
    {
      id, ok := Alloc(node);
      if ok { list.InsertTail(id); }
    }

    /** Appends a node evaluating `e`, unless that would be unobservable. */
    method AppendOptExpr(e: Expr, list: StmtList) returns (ok: bool)
      modifies this, list
      ensures Did(ok, OptExpr(o, e, old(next)), list)
    {
      ok := true;
      if !o.isMeanless(e) {
        var id;
        id, ok := Alloc(NExpr(Plain(e)));
        PutTwo(old(nodes), Cell(id, NExpr(Plain(e))), Cell(id, NPesudo));
        if ok { list.InsertTail(id); }
      }
    }

    method PrepareDec(inits: seq<Option<Expr>>, list: StmtList) returns (ok: bool)
      modifies this, list
      ensures Did(ok, LowerDec(inits, old(next)), list)
    {
      ok := true;
      var k := 0;
      while k < |inits|
        invariant 0 <= k <= |inits|
        invariant ok ==> next + left == old(next) + old(left) && error == old(error)
        invariant ok ==> LowerDec(inits, old(next)).n == LowerDec(inits[k..], next).n
        invariant ok ==> old(list.items) + IdsOf(LowerDec(inits, old(next)).cells)
                         == list.items + IdsOf(LowerDec(inits[k..], next).cells)
        invariant ok ==>
                  Put(old(nodes), LowerDec(inits, old(next)).cells) == Put(nodes, LowerDec(inits[k..], next).cells)
      {
        LowerDecIds(inits[k..], next, 0);
        assert inits[k..][1..] == inits[k + 1..];
        if inits[k].Some? {
          var e := inits[k].value;
          var id;
          ghost var rest := LowerDec(inits[k + 1..], next + 1);
          LowerDecIds(inits[k + 1..], next + 1, 0);
          ghost var m := nodes;
          id, ok := Alloc(NExpr(Plain(e)));
          if !ok { return; }
          list.InsertTail(id);
          ghost var c := [Cell(id, NExpr(Plain(e)))];
          PutTwo(m, c[0], c[0]);
          IdsAppend(c, rest.cells);
          PutAppend(m, c, rest.cells);
        }
        k := k + 1;
      }
    }

    /** Places an existing tree node. */
    method Place(id: Id, node: Node, list: StmtList)
      modifies this, list
      ensures nodes == old(nodes)[id := node] && next == old(next) && left == old(left) && error == old(error)
      ensures list.items == old(list.items) + [id]
    {
      nodes := nodes[id := node];
      list.InsertTail(id);
    }

    method Prepare(s: Stmt, list: StmtList, x: Ctx) returns (ok: bool)
      requires Ready(s, next, x)
      modifies this, list
      ensures Did(ok, Lower(o, s, old(next), x), list)
      decreases s, 2
    {
      hide IdsOf, Put;
      match s
      case Dec(inits) => ok := PrepareDec(inits, list);
      case Label(_, _) => ok := PrepareLabel(s, list, x);
      case Case(_, _, _) => ok := PrepareLabel(s, list, x);
      case Default(_, _) => ok := PrepareLabel(s, list, x);
      case Block(ss) => ok := PrepareBlock(ss, list, x);
      case If(_, _, _, _) => ok := PrepareIf(s, list, x);
      case While(c, b) => ok := PrepareWhile(c, b, list, x);
      case DoWhile(b, c) => ok := PrepareDoWhile(b, c, list, x);
      case For(i, c, inc, b) => ok := PrepareFor(i, c, inc, b, list, x);
      case Switch(e, b, labels) => ok := PrepareSwitch(e, b, labels, list, x);
      case _ => ok := PrepareLeaf(s, list, x);
    }

    method PrepareIf(s: Stmt, list: StmtList, x: Ctx) returns (ok: bool)
      requires s.If? && Ready(s, next, x)
      modifies this, list
      ensures Did(ok, Lower(o, s, old(next), x), list)
      decreases s, 1
    {
      ghost var n, m := next, nodes;
      hide IdsOf, Put, Ready, Lower, Count;
      IfReady(o, s, n, x, m);
      if FoldsIf(o, s.cond, s.thn, s.els) {
        ok := AppendOptExpr(s.cond, list);
        if !ok { return; }
        if o.isTrue(s.cond) { ok := Prepare(s.thn, list, x); }
        else if s.els.Some? { ok := Prepare(s.els.value, list, x); }
      } else {
        var trueList := new StmtList();
        ok := Prepare(s.thn, trueList, x);
        if !ok { return; }
        var falseList := new StmtList();
        if s.els.Some? {
          ok := Prepare(s.els.value, falseList, x);
          if !ok { return; }
        }
        ghost var T := Lower(o, s.thn, n, x);
        ghost var F := if s.els.Some? then Lower(o, s.els.value, T.n, x) else Code([], T.n);
        ok := JoinBranches(s.id, s.cond, trueList, falseList, list, T.cells, F.cells, m);
      }
    }

    /** Ends a loop: the jump back to `top`, and the break point. */
    method AppendBack(top: Id, bp: Id, list: StmtList) returns (ok: bool)
      modifies this, list
      ensures ok <==> old(left) > 0
      ensures ok ==>
              list.items == old(list.items) + [old(next), bp] && nodes == old(nodes)[old(next) := NJump(Some(top))]
                     && next == old(next) + 1 && left == old(left) - 1 && error == old(error)
      ensures !ok ==> error.Some?
    {
      var jump;
      jump, ok := Alloc(NJump(Some(top)));
      if ok {
        list.InsertTail(jump);
        list.InsertTail(bp);
      }
    }

    /** Ends a for loop: its continue point, its last clause, and the way back. */
    method CloseFor(inc: Expr, top: Id, cp: Id, bp: Id, list: StmtList) returns (ok: bool)
      modifies this, list
      ensures var post := OptExpr(o, inc, old(next));
              && (ok <==> post.n + 1 <= old(next) + old(left))
              && (ok ==>
                    && list.items == old(list.items) + [cp] + IdsOf(post.cells) + [post.n, bp]
                    && nodes == Put(old(nodes), post.cells)[post.n := NJump(Some(top))]
                    && next == post.n + 1
                    && next + left == old(next) + old(left)
                    && error == old(error))
              && (!ok ==> error.Some?)
    {
      hide IdsOf, Put;
      list.InsertTail(cp);
      ok := AppendOptExpr(inc, list);
      if !ok { return; }
      ok := AppendBack(top, bp, list);
    }

    method PrepareWhile(c: Expr, b: Stmt, list: StmtList, x: Ctx) returns (ok: bool)
      requires Ready(While(c, b), next, x)
      modifies this, list
      ensures Did(ok, Lower(o, While(c, b), old(next), x), list)
      decreases b, 4
    {
      if FoldsLoop(o, c, b) {
        if o.isTrue(c) { ok := PrepareEndlessWhile(c, b, list, x); }
        else { ok := AppendOptExpr(c, list); }
      } else {
        ok := PrepareTestedWhile(c, b, list, x);
      }
    }

    /** A while loop on a true constant. */
    method PrepareEndlessWhile(c: Expr, b: Stmt, list: StmtList, x: Ctx) returns (ok: bool)
      requires FoldsLoop(o, c, b) && o.isTrue(c) && Ready(While(c, b), next, x)
      modifies this, list
      ensures Did(ok, Lower(o, While(c, b), old(next), x), list)
      decreases b, 3
    {
      hide IdsOf, Put, Ready, Lower, Count, FoldsLoop, OptExpr;
      EndlessWhileReady(o, c, b, next, x, nodes);
      var cp, bp;
      cp, ok := AllocAppend(NPesudo, list);
      if !ok { return; }
      ok := AppendOptExpr(c, list);
      if !ok { return; }
      bp, ok := Alloc(NPesudo);
      if !ok { return; }
      ok := Prepare(b, list, Ctx(Some(bp), Some(cp), x.rp));
      if !ok { return; }
      ok := AppendBack(cp, bp, list);
    }

    /** A while loop that tests its condition. */
    method PrepareTestedWhile(c: Expr, b: Stmt, list: StmtList, x: Ctx) returns (ok: bool)
      requires !FoldsLoop(o, c, b) && Ready(While(c, b), next, x)
      modifies this, list
      ensures Did(ok, Lower(o, While(c, b), old(next), x), list)
      decreases b, 3
    {
      ghost var n := next;
      hide IdsOf, Put, Ready, Lower, Count, FoldsLoop;
      TestedWhileReady(o, c, b, n, x, nodes);
      var cp, branch, bp;
      cp, ok := AllocAppend(NPesudo, list);
      if !ok { return; }
      branch, ok := AllocAppend(NBranch(Plain(c), None, None), list);
      if !ok { return; }
      bp, ok := Alloc(NPesudo);
      if !ok { return; }
      var body := new StmtList();
      ok := Prepare(b, body, Ctx(Some(bp), Some(cp), x.rp));
      if !ok { return; }
      IdsFirst(Lower(o, b, n + 3, Ctx(Some(n + 2), Some(n), x.rp)).cells);
      nodes := nodes[branch := NBranch(Plain(c), body.First(), Some(bp))];
      list.Concat(body);
      ok := AppendBack(cp, bp, list);
    }

    method PrepareDoWhile(b: Stmt, c: Expr, list: StmtList, x: Ctx) returns (ok: bool)
      requires Ready(DoWhile(b, c), next, x)
      modifies this, list
      ensures Did(ok, Lower(o, DoWhile(b, c), old(next), x), list)
      decreases b, 4
    {
      ghost var n, m := next, nodes;
      ghost var y := Ctx(Some(n + 1), Some(n), x.rp);
      DoReady(o, c, b, n, x);
      hide IdsOf, Put, Ready, Lower, Count;
      var cp, bp;
      cp, ok := Alloc(NPesudo);
      if !ok { return; }
      bp, ok := Alloc(NPesudo);
      if !ok { return; }
      var body := new StmtList();
      ok := Prepare(b, body, Ctx(Some(bp), Some(cp), x.rp));
      if !ok { return; }
      ok := FinishDoWhile(c, FoldsLoop(o, c, b), body, cp, bp, list, Lower(o, b, n + 2, y), m);
    }

    /** Places a do loop's prepared body in one of the three shapes; `m` is the store before the loop's nodes. */
    method FinishDoWhile(c: Expr, folds: bool, body: StmtList, cp: Id, bp: Id, list: StmtList,
                         ghost B: Code, ghost m: map<Id, Node>) returns (ok: bool)
      requires list != body && body.items == IdsOf(B.cells) && bp == cp + 1 < B.n == next
      requires nodes == Put(m[cp := NPesudo][bp := NPesudo], B.cells)
      requires Count(B.cells, cp) == 0 && Count(B.cells, bp) == 0 && Count(B.cells, B.n) == 0
      modifies this, list, body
      ensures var code := FinishDo(o, c, folds, B, cp);
              && (ok <==> code.n <= old(next) + old(left))
              && (ok ==>
                    && list.items == old(list.items) + IdsOf(code.cells)
                    && nodes == Put(m, code.cells)
                    && next == code.n
                    && next + left == old(next) + old(left)
                    && error == old(error))
              && (!ok ==> error.Some?)
    {
      hide IdsOf, Put, Count, OptExpr, FinishDo;
      FinishDoPut(o, c, folds, B, cp, m);
      if folds && !o.isTrue(c) {
        list.Concat(body);
        list.InsertTail(cp);
        ok := AppendOptExpr(c, list);
        if !ok { return; }
        list.InsertTail(bp);
      } else {
        var head;
        head, ok := AllocAppend(NPesudo, list);
        if !ok { return; }
        list.Concat(body);
        list.InsertTail(cp);
        ok := RepeatDo(c, folds, head, bp, list);
      }
    }

    /** The end of a do loop that repeats: the constant and the way back, or the branch. */
    method RepeatDo(c: Expr, folds: bool, head: Id, bp: Id, list: StmtList) returns (ok: bool)
      modifies this, list
      ensures var pre := OptExpr(o, c, old(next));
              var end := if folds then pre.n + 1 else old(next) + 1;
              && (ok <==> end <= old(next) + old(left))
              && (ok ==>
                    && list.items == old(list.items)
                       + (if folds then IdsOf(pre.cells) + [pre.n, bp] else [old(next), bp])
                    && nodes == (if folds then Put(old(nodes), pre.cells)[pre.n := NJump(Some(head))]
                                 else old(nodes)[old(next) := NBranch(Plain(c), Some(head), Some(bp))])
                    && next == end
                    && next + left == old(next) + old(left)
                    && error == old(error))
              && (!ok ==> error.Some?)
    {
      hide IdsOf, Put;
      if folds {
        ok := AppendOptExpr(c, list);
        if !ok { return; }
        ok := AppendBack(head, bp, list);
      } else {
        var branch;
        branch, ok := AllocAppend(NBranch(Plain(c), Some(head), Some(bp)), list);
        if !ok { return; }
        list.InsertTail(bp);
      }
    }

    method PrepareFor(i: Expr, c: Expr, inc: Expr, b: Stmt, list: StmtList, x: Ctx) returns (ok: bool)
      requires Ready(For(i, c, inc, b), next, x)
      modifies this, list
      ensures Did(ok, Lower(o, For(i, c, inc, b), old(next), x), list)
      decreases b, 5
    {
      ForReady(o, i, c, inc, b, next, x, nodes);
      hide IdsOf, Put, Ready, Lower, LowerForTest, Count, FoldsLoop;
      ok := AppendOptExpr(i, list);
      if !ok { return; }
      if FoldsLoop(o, c, b) {
        if o.isTrue(c) { ok := PrepareEndlessFor(c, inc, b, list, x); }
        else {
          DroppedFor(o, c, inc, b, next, x);
          ok := AppendOptExpr(c, list);
        }
      } else {
        ok := PrepareTestedFor(c, inc, b, list, x);
      }
    }

    /** The top of a for loop on a true constant. */
    method OpenEndlessFor(c: Expr, list: StmtList) returns (head: Id, cp: Id, bp: Id, ok: bool)
      modifies this, list
      ensures var n := old(next);
              var pre := OptExpr(o, c, n + 2);
              && (ok <==> pre.n + 1 <= n + old(left))
              && (ok ==>
                    && head == n && cp == n + 1 && bp == pre.n && next == pre.n + 1
                    && list.items == old(list.items) + [n] + IdsOf(pre.cells)
                    && nodes == Put(old(nodes)[n := NPesudo][n + 1 := NPesudo], pre.cells)[pre.n := NPesudo]
                    && next + left == n + old(left)
                    && error == old(error))
              && (!ok ==> error.Some?)
    {
      hide IdsOf, Put;
      head, cp, bp := 0, 0, 0;
      head, ok := AllocAppend(NPesudo, list);
      if !ok { return; }
      cp, ok := Alloc(NPesudo);
      if !ok { return; }
      ok := AppendOptExpr(c, list);
      if !ok { return; }
      bp, ok := Alloc(NPesudo);
    }

    /** The top of a for loop that tests its condition, with the branch's targets still open. */
    method OpenTestedFor(c: Expr, list: StmtList) returns (head: Id, cp: Id, branch: Id, bp: Id, ok: bool)
      modifies this, list
      ensures var n := old(next);
              && (ok <==> 4 <= old(left))
              && (ok ==>
                    && head == n && cp == n + 1 && branch == n + 2 && bp == n + 3 && next == n + 4
                    && list.items == old(list.items) + [n, n + 2]
                    && nodes == old(nodes)[n := NPesudo][n + 1 := NPesudo]
                                [n + 2 := NBranch(Plain(c), None, None)][n + 3 := NPesudo]
                    && left == old(left) - 4
                    && error == old(error))
              && (!ok ==> error.Some?)
    {
      head, cp, branch, bp := 0, 0, 0, 0;
      head, ok := AllocAppend(NPesudo, list);
      if !ok { return; }
      cp, ok := Alloc(NPesudo);
      if !ok { return; }
      branch, ok := AllocAppend(NBranch(Plain(c), None, None), list);
      if !ok { return; }
      bp, ok := Alloc(NPesudo);
    }

    /** A for loop on a true constant, after its first clause. */
    method PrepareEndlessFor(c: Expr, inc: Expr, b: Stmt, list: StmtList, x: Ctx) returns (ok: bool)
      requires FoldsLoop(o, c, b) && o.isTrue(c) && ReadyBody(b, next)
      modifies this, list
      ensures Did(ok, LowerForTest(o, c, inc, b, old(next), x), list)
      decreases b, 4
    {
      hide IdsOf, Put, Ready, Lower, LowerForTest, Count, FoldsLoop, OptExpr, ReadyBody;
      EndlessForReady(o, c, inc, b, next, x, nodes);
      var head, cp, bp;
      head, cp, bp, ok := OpenEndlessFor(c, list);
      if !ok { return; }
      ok := Prepare(b, list, Ctx(Some(bp), Some(cp), x.rp));
      if !ok { return; }
      ok := CloseFor(inc, head, cp, bp, list);
    }

    /** A for loop that tests its condition, after its first clause. */
    method PrepareTestedFor(c: Expr, inc: Expr, b: Stmt, list: StmtList, x: Ctx) returns (ok: bool)
      requires !FoldsLoop(o, c, b) && ReadyBody(b, next)
      modifies this, list
      ensures Did(ok, LowerForTest(o, c, inc, b, old(next), x), list)
      decreases b, 4
    {
      ghost var n := next;
      hide IdsOf, Put, Ready, Lower, LowerForTest, Count, FoldsLoop, OptExpr, ReadyBody;
      TestedForReady(o, c, inc, b, n, x, nodes);
      var head, cp, branch, bp;
      head, cp, branch, bp, ok := OpenTestedFor(c, list);
      if !ok { return; }
      var body := new StmtList();
      ok := Prepare(b, body, Ctx(Some(bp), Some(cp), x.rp));
      if !ok { return; }
      IdsFirst(Lower(o, b, n + 4, Ctx(Some(n + 3), Some(n + 1), x.rp)).cells);
      nodes := nodes[branch := NBranch(Plain(c), body.First(), Some(bp))];
      list.Concat(body);
      ok := CloseFor(inc, head, cp, bp, list);
    }

    /** Fills in the false target of the branch that is still open, if there is one. */
    method CloseBranch(open: Option<Id>, target: Id)
      requires open.Some? ==> open.value in nodes && nodes[open.value].NBranch?
      modifies this`nodes
      ensures nodes == Patch(old(nodes), open, Some(target))
    {
      if open.Some? {
        var node := nodes[open.value];
        nodes := nodes[open.value := node.(onFalse := Some(target))];
      }
    }

    /** Appends one case of the compare chain: its branch, still open, and its jump. */
    method AppendCase(l: CaseLabel, sym: Id, open: Option<Id>, list: StmtList) returns (branch: Id, ok: bool)
      requires l.CaseLabel?
      requires open.Some? ==> open.value in nodes && nodes[open.value].NBranch? && open.value < next
      modifies this, list
      ensures var n := old(next);
              && (ok <==> 2 <= old(left))
              && (ok ==>
                    && branch == n + 1 && next == n + 2 && left == old(left) - 2 && error == old(error)
                    && list.items == old(list.items) + [n + 1, n]
                    && nodes == Patch(old(nodes), open, Some(n + 1))[n := NJump(Some(l.id))]
                                [n + 1 := NBranch(SelectorIs(sym, l.e), Some(n), None)])
              && (!ok ==> error.Some?)
    {
      var jump;
      branch := 0;
      jump, ok := Alloc(NJump(Some(l.id)));
      if !ok { return; }
      branch, ok := Alloc(NBranch(SelectorIs(sym, l.e), Some(jump), None));
      if !ok { return; }
      CloseBranch(open, branch);
      list.InsertTail(branch);
      list.InsertTail(jump);
    }

    /** Appends the compare chain of a switch. Each branch is aimed at the next one once that exists. */
    method AppendChain(labels: seq<CaseLabel>, sym: Id, bp: Id, list: StmtList) returns (ok: bool)
      modifies this, list
      ensures Did(ok, Chain(labels, sym, DefaultTarget(labels, bp), old(next)), list)
    {
      hide IdsOf, Put, Chain, DefaultTarget;
      ghost var dflt := DefaultTarget(labels, bp);
      ghost var total := Chain(labels, sym, dflt, next);
      ok := true;
      var open: Option<Id> := None;
      var default := bp;
      var k := 0;
      ChainStart(labels, total.cells);
      while k < |labels|
        invariant 0 <= k <= |labels| && ok
        invariant next + left == old(next) + old(left) && error == old(error)
        invariant dflt == DefaultTarget(labels[k..], default)
        invariant open.Some? ==> open.value in nodes && nodes[open.value].NBranch? && open.value < next
        invariant var rest := Chain(labels[k..], sym, dflt, next);
                  && total.n == rest.n
                  && old(list.items) + IdsOf(total.cells) == list.items + IdsOf(rest.cells)
                  && Put(old(nodes), total.cells) == Put(Patch(nodes, open, First(rest.cells)), rest.cells)
      {
        ChainStep(labels, k, sym, dflt, default, next, nodes, open);
        if labels[k].DefaultLabel? {
          default := labels[k].id;
        } else {
          var branch;
          branch, ok := AppendCase(labels[k], sym, open, list);
          if !ok { return; }
          open := Some(branch);
        }
        k := k + 1;
      }
      ChainEnd(labels, sym, default, next, nodes, open);
      var jump;
      jump, ok := Alloc(NJump(Some(default)));
      if !ok { return; }
      CloseBranch(open, jump);
      list.InsertTail(jump);
    }

    /** Allocates the selector's symbol. */
    method AllocSymbol() returns (sym: Id, ok: bool)
      modifies this
      ensures ok <==> old(left) > 0
      ensures ok ==>
              sym == old(next) && next == sym + 1 && left == old(left) - 1 && nodes == old(nodes) && error == old(error)
      ensures !ok ==> error.Some?
    {
      sym := next;
      ok := left > 0;
      if ok { next, left := next + 1, left - 1; } else { error := Some(AllocFailed); }
    }

    method PrepareSwitch(e: Expr, b: Stmt, labels: seq<CaseLabel>, list: StmtList, x: Ctx) returns (ok: bool)
      requires Ready(Switch(e, b, labels), next, x)
      modifies this, list
      ensures Did(ok, Lower(o, Switch(e, b, labels), old(next), x), list)
      decreases b, 4
    {
      hide IdsOf, Put, Ready, Lower, Count, Chain, ContainsLabel;
      SwitchReady(o, e, b, labels, next, x, nodes);
      var sym, assign, bp;
      sym, ok := AllocSymbol();
      if !ok { return; }
      assign, ok := AllocAppend(NExpr(SetSelector(sym, e)), list);
      if !ok || !ContainsLabel(b) { return; }
      bp, ok := Alloc(NPesudo);
      if !ok { return; }
      ok := AppendChain(labels, sym, bp, list);
      if !ok { return; }
      ok := Prepare(b, list, Ctx(Some(bp), x.cp, x.rp));
      if !ok { return; }
      list.InsertTail(bp);
    }

    /**
      Lowers a function's body. On success the finished list, read through the
      node store, is what the pass computes, with the first identity as its
      return point; it fails exactly when the slab runs out, and then says so.
     */
    method FunctionPrepare(fn: seq<Stmt>) returns (list: StmtList, returnPoint: Id, ok: bool)
      requires ReadySeq(fn, next, Ctx(None, None, next)) && fn != []
      modifies this
      ensures fresh(list)
      ensures ok <==> LowerFunction(o, fn, old(next)).n <= old(next) + old(left)
      ensures ok ==> returnPoint == old(next) && Reads(list.items, nodes, LowerFunction(o, fn, old(next)).cells)
      ensures ok ==> error == None
      ensures !ok ==> error.Some?
    {
      hide Put, IdsOf, LowerSeq, ReadySeq, Reads;
      FunctionReady(o, fn, next, nodes);
      list := new StmtList();
      returnPoint, ok := Alloc(NPesudo);
      if !ok { return; }
      error := None;
      ok := PrepareBlock(fn, list, Ctx(None, None, returnPoint));
    }

    method PrepareLeaf(s: Stmt, list: StmtList, x: Ctx) returns (ok: bool)
      requires s.Exp? || s.Goto? || s.Return? || s.Break? || s.Continue?
      requires Asserted(s, x.bp.Some?, x.cp.Some?)
      modifies this, list
      ensures Did(ok, Lower(o, s, old(next), x), list)
    {
      ok := true;
      ghost var c := Lower(o, s, next, x).cells[0];
      PutTwo(nodes, c, c);
      match s
      case Exp(id, e) => Place(id, NExpr(Plain(e)), list);
      case Goto(id, target) => Place(id, NGoto(Some(target)), list);
      case Return(id, result) => Place(id, NReturn(result, Some(x.rp)), list);
      case Break(id) => Place(id, NBreak(x.bp), list);
      case Continue(id) => Place(id, NContinue(x.cp), list);
    }

    /** A label, case or default: its node, and then its body, whose first node it points at. */
    method PrepareLabel(s: Stmt, list: StmtList, x: Ctx) returns (ok: bool)
      requires (s.Label? || s.Case? || s.Default?) && Ready(s, next, x)
      modifies this, list
      ensures Did(ok, Lower(o, s, old(next), x), list)
      decreases s, 1
    {
      ghost var n, m := next, nodes;
      assert NodeIds(s.body) <= NodeIds(s);
      list.InsertTail(s.id);
      var target := new StmtList();
      ok := Prepare(s.body, target, x);
      if !ok {
        if error.Some? { error := Some(PrepareFailed); }
        return;
      }
      ghost var B := Lower(o, s.body, n, x).cells;
      var first := target.First();
      IdsFirst(B);
      var node := if s.Label? then NLabel(first) else if s.Case? then NCase(s.e, first) else NDefault(first);
      nodes := nodes[s.id := node];
      list.Concat(target);
      ghost var c := Cell(s.id, node);
      assert Lower(o, s, n, x).cells == [c] + B;
      LowerIds(o, s.body, n, x, s.id);
      PutSwap(m, B, s.id, node);
      PutTwo(m, c, c);
      PutAppend(m, [c], B);
      IdsAppend([c], B);
    }

    method PrepareBlock(ss: seq<Stmt>, list: StmtList, x: Ctx) returns (ok: bool)
      requires ReadySeq(ss, next, x) && ss != []
      modifies this, list
      ensures Did(ok, LowerSeq(o, ss, old(next), x), list)
      decreases ss, 0
    {
      hide Lower, LowerSeq, IdsOf, Put, ReadySeq, Ready;
      ghost var code := LowerSeq(o, ss, next, x);
      var local := new StmtList();
      NothingYet(ss, code.cells);
      ok := true;
      var k := 0;
      while k < |ss|
        invariant 0 <= k <= |ss| && ok && fresh(local) && list.items == old(list.items)
        invariant next + left == old(next) + old(left) && error == old(error)
        invariant ReadySeq(ss[k..], next, x) && code.n == LowerSeq(o, ss[k..], next, x).n
        invariant IdsOf(code.cells) == local.items + IdsOf(LowerSeq(o, ss[k..], next, x).cells)
        invariant Put(old(nodes), code.cells) == Put(nodes, LowerSeq(o, ss[k..], next, x).cells)
        modifies this, local
      {
        BlockStep(o, ss, k, next, x, nodes);
        ok := Prepare(ss[k], local, x);
        if !ok { return; }  // the error is already set
        k := k + 1;
      }
      BlockEnd(o, ss, next, x, nodes);
      list.Concat(local);
    }

    /** The single expression left of a conditional whose branches are both empty. */
    method AppendExpr(e: Expr, list: StmtList) returns (ok: bool)
      modifies this, list
      ensures Did(ok, Code([Cell(old(next), NExpr(Plain(e)))], old(next) + 1), list)
    {
      var id;
      id, ok := Alloc(NExpr(Plain(e)));
      PutTwo(old(nodes), Cell(id, NExpr(Plain(e))), Cell(id, NPesudo));
      if ok { list.InsertTail(id); }
    }

    /** Joins two prepared branches into one of the four shapes; `m` is the store before the branches were prepared. */
    method JoinBranches(id: Id, c: Expr, trueList: StmtList, falseList: StmtList, list: StmtList,
                        ghost T: seq<Cell>, ghost F: seq<Cell>, ghost m: map<Id, Node>) returns (ok: bool)
      requires list != trueList && list != falseList && trueList != falseList
      requires trueList.items == IdsOf(T) && falseList.items == IdsOf(F) && nodes == Put(Put(m, T), F)
      requires Count(T, next) == 0 && Count(F, next + 1) == 0
      requires Count(T, id) == 0 && Count(F, id) == 0 && id < next
      modifies this, list, trueList, falseList
      ensures var code := JoinIf(id, c, T, F, old(next));
              && (ok <==> code.n <= old(next) + old(left))
              && (ok ==>
                    && list.items == old(list.items) + IdsOf(code.cells)
                    && nodes == Put(m, code.cells)
                    && next == code.n
                    && next + left == old(next) + old(left)
                    && error == old(error))
              && (!ok ==> error.Some?)
    {
      hide Put, IdsOf, Count;
      IdsFirst(T);
      IdsFirst(F);
      if trueList.items == [] && falseList.items == [] {
        PutNothing(m);
        ok := AppendExpr(c, list);
        return;
      }
      var tail, jump := 0, 0;
      tail, ok := Alloc(NPesudo);
      if !ok { return; }
      if falseList.items == [] {
        var node := NBranch(Plain(c), trueList.First(), Some(tail));
        nodes := nodes[id := node];
        list.InsertTail(id);
        list.Concat(trueList);
        list.InsertTail(tail);
        PutNothing(Put(m, T));
        JoinOnlyPut(m, id, node, T, tail);
      } else {
        jump, ok := Alloc(NJump(Some(tail)));
        if !ok { return; }
        var onTrue := if trueList.items == [] then Some(jump) else trueList.First();
        var node := NBranch(Plain(c), onTrue, falseList.First());
        nodes := nodes[id := node];
        list.InsertTail(id);
        list.Concat(trueList);
        list.InsertTail(jump);
        list.Concat(falseList);
        list.InsertTail(tail);
        JoinBothPut(m, id, node, T, jump, F, tail);
        JoinBothShape(id, c, T, F, tail);
      }
    }
  }

  /** A conditional with an empty true branch is one with two branches whose branch points at the jump. */
  lemma JoinBothShape(id: Id, c: Expr, T: seq<Cell>, F: seq<Cell>, n: Id)
    requires F != []
    ensures JoinIf(id, c, T, F, n) ==
            Code([Cell(id, NBranch(Plain(c), if T == [] then Some(n + 1) else First(T), First(F)))]
                                           + T + [Cell(n + 1, NJump(Some(n)))] + F + [Cell(n, NPesudo)], n + 2)
  {
  }

  lemma PutNothing(m: map<Id, Node>)
    ensures Put(m, []) == m
  {
  }

  lemma IdsFirst(cells: seq<Cell>)
    ensures (if IdsOf(cells) == [] then None else Some(IdsOf(cells)[0])) == First(cells)
    ensures IdsOf(cells) == [] <==> cells == []
  {
  }

  ghost predicate ReadySeq(ss: seq<Stmt>, n: Id, x: Ctx) {
    DistinctIdsSeq(ss) && Below(NodeIdsSeq(ss), n) && AssertedSeq(ss, x.bp.Some?, x.cp.Some?)
  }

  lemma NothingYet(ss: seq<Stmt>, cells: seq<Cell>)
    ensures ss[0..] == ss && [] + IdsOf(cells) == IdsOf(cells)
  {
  }

  /** One statement of a block, and the rest. */
  lemma BlockStep(o: Oracles, ss: seq<Stmt>, k: nat, n: Id, x: Ctx, m: map<Id, Node>)
    requires k < |ss| && ReadySeq(ss[k..], n, x)
    ensures Ready(ss[k], n, x)
    ensures var a, all := Lower(o, ss[k], n, x), LowerSeq(o, ss[k..], n, x);
            var rest := LowerSeq(o, ss[k + 1..], a.n, x);
            && n <= a.n <= all.n && rest.n == all.n
            && ReadySeq(ss[k + 1..], a.n, x)
            && IdsOf(all.cells) == IdsOf(a.cells) + IdsOf(rest.cells)
            && Put(m, all.cells) == Put(Put(m, a.cells), rest.cells)
  {
    assert ss[k..][1..] == ss[k + 1..] && ss[k..][0] == ss[k];
    var a := Lower(o, ss[k], n, x);
    var rest := LowerSeq(o, ss[k + 1..], a.n, x);
    LowerGrows(o, ss[k], n, x);
    LowerSeqGrows(o, ss[k + 1..], a.n, x);
    SeqReady(ss[k..], n, x);
    IdsAppend(a.cells, rest.cells);
    PutAppend(m, a.cells, rest.cells);
  }

  lemma BlockEnd(o: Oracles, ss: seq<Stmt>, n: Id, x: Ctx, m: map<Id, Node>)
    ensures LowerSeq(o, ss[|ss|..], n, x) == Code([], n) && IdsOf([]) == [] && Put(m, []) == m
  {
    assert ss[|ss|..] == [];
  }

  lemma SeqReady(ss: seq<Stmt>, n: Id, x: Ctx)
    requires DistinctIdsSeq(ss) && Below(NodeIdsSeq(ss), n) && ss != [] && AssertedSeq(ss, x.bp.Some?, x.cp.Some?)
    ensures Ready(ss[0], n, x)
    ensures DistinctIdsSeq(ss[1..]) && AssertedSeq(ss[1..], x.bp.Some?, x.cp.Some?)
    ensures forall m :: m >= n ==> Below(NodeIdsSeq(ss[1..]), m)
  {
    assert NodeIds(ss[0]) <= NodeIdsSeq(ss) && NodeIdsSeq(ss[1..]) <= NodeIdsSeq(ss);
  }

  /** Writing a conditional with one branch, in the order the pass does. */
  lemma JoinOnlyPut(m: map<Id, Node>, id: Id, node: Node, T: seq<Cell>, tail: Id)
    requires Count(T, id) == 0 && id != tail
    ensures Put(m, T)[tail := NPesudo][id := node] == Put(m, [Cell(id, node)] + T + [Cell(tail, NPesudo)])
    ensures IdsOf([Cell(id, node)] + T + [Cell(tail, NPesudo)]) == [id] + IdsOf(T) + [tail]
  {
    hide Put, IdsOf, Count;
    var a, z := Cell(id, node), Cell(tail, NPesudo);
    PutTwo(m, a, a);
    PutAround(m, [a], T, z, z);
    PutSwap(m, T, id, node);
    Commute(Put(m, T), id, node, tail, NPesudo);
  }

  lemma Commute(m: map<Id, Node>, a: Id, v: Node, b: Id, u: Node)
    requires a != b
    ensures m[a := v][b := u] == m[b := u][a := v]
  {
  }

  /** Writing a conditional with two branches, in the order the pass does. */
  lemma JoinBothPut(m: map<Id, Node>, id: Id, node: Node, T: seq<Cell>, jump: Id, F: seq<Cell>, tail: Id)
    requires Count(T, id) == 0 && Count(F, id) == 0 && Count(F, jump) == 0
    requires id != tail && id != jump && jump != tail
    ensures var a, j, z := Cell(id, node), Cell(jump, NJump(Some(tail))), Cell(tail, NPesudo);
            && Put(Put(m, T), F)[tail := NPesudo][jump := j.node][id := node] == Put(m, [a] + T + [j] + F + [z])
            && IdsOf([a] + T + [j] + F + [z]) == [id] + IdsOf(T) + [jump] + IdsOf(F) + [tail]
  {
    hide Put, IdsOf, Count;
    var a, j, z := Cell(id, node), Cell(jump, NJump(Some(tail))), Cell(tail, NPesudo);
    PutTwo(m, a, a);
    PutAround(m, [a], T, j, j);
    PutAround(m, [a] + T + [j], F, z, z);
    PutSwap(m, T, id, node);
    var mt := Put(m, T);
    PutSwap(mt[id := node], F, jump, j.node);
    PutSwap(mt, F, id, node);
    var mf: map<Id, Node> := Put(mt, F);
    Commute(mf, id, node, jump, j.node);
    Commute(mf[jump := j.node], id, node, tail, NPesudo);
    Commute(mf, jump, j.node, tail, NPesudo);
  }

  /** What a conditional's two branches need and produce. */
  lemma IfReady(o: Oracles, s: Stmt, n: Id, x: Ctx, m: map<Id, Node>)
    requires s.If? && Ready(s, n, x)
    ensures FoldsIf(o, s.cond, s.thn, s.els) ==>
              var pre, all := OptExpr(o, s.cond, n), Lower(o, s, n, x);
              && pre.n <= all.n
              && (o.isTrue(s.cond) ==> Ready(s.thn, pre.n, x) && Follows(m, pre, Lower(o, s.thn, pre.n, x), all))
              && (!o.isTrue(s.cond) && s.els.Some? ==>
                    Ready(s.els.value, pre.n, x) && Follows(m, pre, Lower(o, s.els.value, pre.n, x), all))
              && (!o.isTrue(s.cond) && s.els.None? ==> all == pre)
    ensures !FoldsIf(o, s.cond, s.thn, s.els) ==>
              var T := Lower(o, s.thn, n, x);
              var F := if s.els.Some? then Lower(o, s.els.value, T.n, x) else Code([], T.n);
              var all := Lower(o, s, n, x);
              && Ready(s.thn, n, x) && (s.els.Some? ==> Ready(s.els.value, T.n, x))
              && n <= T.n <= F.n <= all.n && all == JoinIf(s.id, s.cond, T.cells, F.cells, F.n)
              && Count(T.cells, F.n) == 0 && Count(F.cells, F.n + 1) == 0
              && Count(T.cells, s.id) == 0 && Count(F.cells, s.id) == 0 && s.id < F.n
              && IdsOf([]) == [] && Put(Put(m, T.cells), []) == Put(m, T.cells)
  {
    var If(id, c, t, e) := s;
    assert id in NodeIds(s) && NodeIds(t) <= NodeIds(s) && (e.Some? ==> NodeIds(e.value) <= NodeIds(s));
    if FoldsIf(o, c, t, e) {
      var pre := OptExpr(o, c, n);
      LowerGrows(o, t, pre.n, x);
      FollowsAppend(m, pre, Lower(o, t, pre.n, x));
      if e.Some? {
        LowerGrows(o, e.value, pre.n, x);
        FollowsAppend(m, pre, Lower(o, e.value, pre.n, x));
      }
    } else {
      IfBranchIds(o, s, n, x);
    }
  }

  lemma IfBranchIds(o: Oracles, s: Stmt, n: Id, x: Ctx)
    requires s.If? && Ready(s, n, x)
    ensures var T := Lower(o, s.thn, n, x);
            var F := if s.els.Some? then Lower(o, s.els.value, T.n, x) else Code([], T.n);
            && n <= T.n <= F.n
            && Count(T.cells, F.n) == 0 && Count(F.cells, F.n + 1) == 0
            && Count(T.cells, s.id) == 0 && Count(F.cells, s.id) == 0 && s.id < F.n
  {
    var If(id, c, t, e) := s;
    assert id in NodeIds(s) && NodeIds(t) <= NodeIds(s) && (e.Some? ==> NodeIds(e.value) <= NodeIds(s));
    hide Lower;
    var T := Lower(o, t, n, x);
    LowerIds(o, t, n, x, id);
    if e.Some? {
      var F := Lower(o, e.value, T.n, x);
      LowerIds(o, e.value, T.n, x, id);
      LowerIds(o, e.value, T.n, x, F.n + 1);
      LowerIds(o, t, n, x, F.n);
    } else {
      LowerIds(o, t, n, x, T.n);
    }
  }

  /** `all` is `a` and then `b`, in the list and in the store. */
  ghost predicate Follows(m: map<Id, Node>, a: Code, b: Code, all: Code) {
    && a.n <= b.n == all.n
    && IdsOf(all.cells) == IdsOf(a.cells) + IdsOf(b.cells)
    && Put(m, all.cells) == Put(Put(m, a.cells), b.cells)
  }

  lemma FollowsAppend(m: map<Id, Node>, a: Code, b: Code)
    requires a.n <= b.n
    ensures Follows(m, a, b, Code(a.cells + b.cells, b.n))
  {
    IdsAppend(a.cells, b.cells);
    PutAppend(m, a.cells, b.cells);
  }

  /** A loop closed over a prepared head and last code, in the order the pass writes it. */
  lemma ClosePut(m: map<Id, Node>, head: seq<Cell>, last: seq<Cell>, top: Id, bp: Id, n: Id)
    requires Count(last, bp) == 0 && n != bp
    ensures var cells := CloseLoop(head, last, top, bp, n).cells;
            && IdsOf(cells) == IdsOf(head) + IdsOf(last) + [n, bp]
            && Put(m, cells) == Put(Put(m, head)[bp := NPesudo], last)[n := NJump(Some(top))]
  {
    hide Put, IdsOf, Count;
    PutAround(m, head, last, Cell(n, NJump(Some(top))), Cell(bp, NPesudo));
    PutSwap(Put(m, head), last, bp, NPesudo);
    Commute(Put(Put(m, head), last), bp, NPesudo, n, NJump(Some(top)));
  }

  lemma EndlessWhileReady(o: Oracles, c: Expr, b: Stmt, n: Id, x: Ctx, m: map<Id, Node>)
    requires FoldsLoop(o, c, b) && o.isTrue(c) && Ready(While(c, b), n, x)
    ensures var pre, all := OptExpr(o, c, n + 1), Lower(o, While(c, b), n, x);
            var y := Ctx(Some(pre.n), Some(n), x.rp);
            var B := Lower(o, b, pre.n + 1, y);
            && Ready(b, pre.n + 1, y) && n + 1 <= pre.n < B.n && all.n == B.n + 1
            && IdsOf(all.cells) == [n] + IdsOf(pre.cells) + IdsOf(B.cells) + [B.n, pre.n]
            && Put(m, all.cells) ==
               Put(Put(m[n := NPesudo], pre.cells)[pre.n := NPesudo], B.cells)[B.n := NJump(Some(n))]
  {
    assert NodeIds(b) == NodeIds(While(c, b));
    var pre := OptExpr(o, c, n + 1);
    var y := Ctx(Some(pre.n), Some(n), x.rp);
    var B := Lower(o, b, pre.n + 1, y);
    assert Lower(o, While(c, b), n, x) == CloseLoop([Cell(n, NPesudo)] + pre.cells, B.cells, n, pre.n, B.n);
    hide Put, IdsOf, Count, Lower;
    LowerIds(o, b, pre.n + 1, y, pre.n);
    var cp := Cell(n, NPesudo);
    ClosePut(m, [cp] + pre.cells, B.cells, n, pre.n, B.n);
    PutOne(m, cp);
    PutAppend(m, [cp], pre.cells);
    IdsAppend([cp], pre.cells);
  }

  lemma TestedWhileReady(o: Oracles, c: Expr, b: Stmt, n: Id, x: Ctx, m: map<Id, Node>)
    requires !FoldsLoop(o, c, b) && Ready(While(c, b), n, x)
    ensures var y, all := Ctx(Some(n + 2), Some(n), x.rp), Lower(o, While(c, b), n, x);
            var B := Lower(o, b, n + 3, y);
            && Ready(b, n + 3, y) && n + 3 <= B.n && all.n == B.n + 1
            && IdsOf(all.cells) == [n, n + 1] + IdsOf(B.cells) + [B.n, n + 2]
            && Put(m, all.cells)
               == Put(m[n := NPesudo][n + 1 := NBranch(Plain(c), None, None)][n + 2 := NPesudo], B.cells)
                  [n + 1 := NBranch(Plain(c), First(B.cells), Some(n + 2))][B.n := NJump(Some(n))]
  {
    assert NodeIds(b) == NodeIds(While(c, b));
    var y := Ctx(Some(n + 2), Some(n), x.rp);
    var B := Lower(o, b, n + 3, y);
    var head := TestedHead(n, n + 1, c, B.cells, n + 2);
    assert Lower(o, While(c, b), n, x) == CloseLoop(head, B.cells, n, n + 2, B.n);
    hide Put, IdsOf, Count, Lower;
    LowerIds(o, b, n + 3, y, n + 1);
    LowerIds(o, b, n + 3, y, n + 2);
    ClosePut(m, head, B.cells, n, n + 2, B.n);
    PatchedHead(m, n, n + 1, c, B.cells, n + 2);
  }

  lemma DoReady(o: Oracles, c: Expr, b: Stmt, n: Id, x: Ctx)
    requires Ready(DoWhile(b, c), n, x)
    ensures var y := Ctx(Some(n + 1), Some(n), x.rp);
            var B := Lower(o, b, n + 2, y);
            && Ready(b, n + 2, y) && n + 2 <= B.n
            && Lower(o, DoWhile(b, c), n, x) == FinishDo(o, c, FoldsLoop(o, c, b), B, n)
            && Count(B.cells, n) == 0 && Count(B.cells, n + 1) == 0 && Count(B.cells, B.n) == 0
            && FinishDo(o, c, FoldsLoop(o, c, b), B, n).n >= B.n
  {
    assert NodeIds(b) == NodeIds(DoWhile(b, c));
    var y := Ctx(Some(n + 1), Some(n), x.rp);
    var B := Lower(o, b, n + 2, y);
    LowerIds(o, b, n + 2, y, n);
    LowerIds(o, b, n + 2, y, n + 1);
    LowerIds(o, b, n + 2, y, B.n);
    assert Lower(o, DoWhile(b, c), n, x) == FinishDo(o, c, FoldsLoop(o, c, b), B, n);
    hide Lower;
  }

  /** A do loop's three shapes, in the order the pass writes them. */
  lemma FinishDoPut(o: Oracles, c: Expr, folds: bool, B: Code, n: Id, m: map<Id, Node>)
    requires Count(B.cells, n) == 0 && Count(B.cells, n + 1) == 0 && Count(B.cells, B.n) == 0 && n + 1 < B.n
    ensures var code := FinishDo(o, c, folds, B, n);
            var mb := Put(m[n := NPesudo][n + 1 := NPesudo], B.cells);
            var pre0, pre1 := OptExpr(o, c, B.n), OptExpr(o, c, B.n + 1);
            if folds && !o.isTrue(c) then
              && code.n == pre0.n
              && IdsOf(code.cells) == IdsOf(B.cells) + [n] + IdsOf(pre0.cells) + [n + 1]
              && Put(m, code.cells) == Put(mb, pre0.cells)
            else if folds then
              && code.n == pre1.n + 1 && pre1.n > B.n
              && IdsOf(code.cells) == [B.n] + IdsOf(B.cells) + [n] + IdsOf(pre1.cells) + [pre1.n, n + 1]
              && Put(m, code.cells) == Put(mb[B.n := NPesudo], pre1.cells)[pre1.n := NJump(Some(B.n))]
            else
              && code.n == B.n + 2
              && IdsOf(code.cells) == [B.n] + IdsOf(B.cells) + [n] + [B.n + 1, n + 1]
              && Put(m, code.cells) == mb[B.n := NPesudo][B.n + 1 := NBranch(Plain(c), Some(B.n), Some(n + 1))]
  {
    if folds && !o.isTrue(c) { DoOncePut(o, c, B, n, m); }
    else if folds { DoEndlessPut(o, c, B, n, m); }
    else { DoTestedPut(c, B, n, m); }
  }

  /** The continue and break points of a do loop can be written before or after its body. */
  lemma DoBodyPut(B: Code, n: Id, m: map<Id, Node>)
    requires Count(B.cells, n) == 0 && Count(B.cells, n + 1) == 0
    ensures Put(m[n := NPesudo][n + 1 := NPesudo], B.cells) == Put(m, B.cells)[n := NPesudo][n + 1 := NPesudo]
  {
    PutSwap(m[n := NPesudo], B.cells, n + 1, NPesudo);
    PutSwap(m, B.cells, n, NPesudo);
  }

  /** A node handed out before an optional expression is not that expression. */
  lemma EarlierThan(o: Oracles, e: Expr, n: Id, id: Id)
    requires id < n
    ensures Count(OptExpr(o, e, n).cells, id) == 0
  {
    OptExprIds(o, e, n, id);
  }

  lemma DoOncePut(o: Oracles, c: Expr, B: Code, n: Id, m: map<Id, Node>)
    requires Count(B.cells, n) == 0 && Count(B.cells, n + 1) == 0 && Count(B.cells, B.n) == 0 && n + 1 < B.n
    ensures var pre := OptExpr(o, c, B.n).cells;
            var cells := B.cells + [Cell(n, NPesudo)] + pre + [Cell(n + 1, NPesudo)];
            && IdsOf(cells) == IdsOf(B.cells) + [n] + IdsOf(pre) + [n + 1]
            && Put(m, cells) == Put(Put(m[n := NPesudo][n + 1 := NPesudo], B.cells), pre)
  {
    DoBodyPut(B, n, m);
    EarlierThan(o, c, B.n, n + 1);
    hide Put, IdsOf, Count, OptExpr;
    var pre, cp, bp := OptExpr(o, c, B.n).cells, Cell(n, NPesudo), Cell(n + 1, NPesudo);
    PutAround(m, B.cells + [cp], pre, bp, bp);
    PutAppend(m, B.cells, [cp]);
    IdsAppend(B.cells, [cp]);
    PutOne(Put(m, B.cells), cp);
    PutSwap(Put(m, B.cells)[n := NPesudo], pre, n + 1, NPesudo);
  }

  lemma DoEndlessPut(o: Oracles, c: Expr, B: Code, n: Id, m: map<Id, Node>)
    requires Count(B.cells, n) == 0 && Count(B.cells, n + 1) == 0 && Count(B.cells, B.n) == 0 && n + 1 < B.n
    ensures var code := FinishDo(o, c, true, B, n);
            var pre := OptExpr(o, c, B.n + 1);
            o.isTrue(c) ==>
              && IdsOf(code.cells) == [B.n] + IdsOf(B.cells) + [n] + IdsOf(pre.cells) + [pre.n, n + 1]
              && Put(m, code.cells) == Put(Put(m[n := NPesudo][n + 1 := NPesudo], B.cells)[B.n := NPesudo], pre.cells)
                                       [pre.n := NJump(Some(B.n))]
              && pre.n > B.n
  {
    if o.isTrue(c) {
      var pre := OptExpr(o, c, B.n + 1);
      EarlierThan(o, c, B.n + 1, n + 1);
      DoHeadPut(B, n, m);
      assert pre.n > B.n;
      hide Put, IdsOf, Count, OptExpr;
      var h := [Cell(B.n, NPesudo)] + B.cells + [Cell(n, NPesudo)];
      ClosePut(m, h, pre.cells, B.n, n + 1, pre.n);
    }
  }

  /** A do loop's head, body and continue point; the head can be written last. */
  lemma DoHeadPut(B: Code, n: Id, m: map<Id, Node>)
    requires Count(B.cells, n) == 0 && Count(B.cells, n + 1) == 0 && Count(B.cells, B.n) == 0 && n + 1 < B.n
    ensures var h := [Cell(B.n, NPesudo)] + B.cells + [Cell(n, NPesudo)];
            && IdsOf(h) == [B.n] + IdsOf(B.cells) + [n]
            && Put(m, h)[n + 1 := NPesudo] == Put(m[n := NPesudo][n + 1 := NPesudo], B.cells)[B.n := NPesudo]
  {
    DoBodyPut(B, n, m);
    hide IdsOf, Put, Count;
    var head, cp := Cell(B.n, NPesudo), Cell(n, NPesudo);
    PutAround(m, [head], B.cells, cp, cp);
    PutOne(m, head);
    PutSwap(m, B.cells, B.n, NPesudo);
    var mb: map<Id, Node> := Put(m, B.cells);
    assert mb[B.n := NPesudo][n := NPesudo][n + 1 := NPesudo] == mb[n := NPesudo][n + 1 := NPesudo][B.n := NPesudo];
  }

  lemma DoTestedPut(c: Expr, B: Code, n: Id, m: map<Id, Node>)
    requires Count(B.cells, n) == 0 && Count(B.cells, n + 1) == 0 && Count(B.cells, B.n) == 0 && n + 1 < B.n
    ensures var branch := Cell(B.n + 1, NBranch(Plain(c), Some(B.n), Some(n + 1)));
            var cells := [Cell(B.n, NPesudo)] + B.cells + [Cell(n, NPesudo)] + [branch, Cell(n + 1, NPesudo)];
            && IdsOf(cells) == [B.n] + IdsOf(B.cells) + [n] + [B.n + 1, n + 1]
            && Put(m, cells) == Put(m[n := NPesudo][n + 1 := NPesudo], B.cells)[B.n := NPesudo][B.n + 1 := branch.node]
  {
    DoHeadPut(B, n, m);
    hide IdsOf, Put, Count;
    var h := [Cell(B.n, NPesudo)] + B.cells + [Cell(n, NPesudo)];
    var branch, bp := Cell(B.n + 1, NBranch(Plain(c), Some(B.n), Some(n + 1))), Cell(n + 1, NPesudo);
    PutAppend(m, h, [branch, bp]);
    IdsAppend(h, [branch, bp]);
    PutTwo(Put(m, h), branch, bp);
    Commute(Put(m, h), B.n + 1, branch.node, n + 1, NPesudo);
  }

  /** A body ready to be lowered from identity `n` on inside a loop. */
  ghost predicate ReadyBody(b: Stmt, n: Id) {
    DistinctIds(b) && Below(NodeIds(b), n) && Asserted(b, true, true)
  }

  lemma ForReady(o: Oracles, i: Expr, c: Expr, inc: Expr, b: Stmt, n: Id, x: Ctx, m: map<Id, Node>)
    requires Ready(For(i, c, inc, b), n, x)
    ensures var I := OptExpr(o, i, n);
            var L := LowerForTest(o, c, inc, b, I.n, x);
            ReadyBody(b, I.n) && Follows(m, I, L, Lower(o, For(i, c, inc, b), n, x))
  {
    assert NodeIds(b) == NodeIds(For(i, c, inc, b));
    var I := OptExpr(o, i, n);
    ForTestGrows(o, c, inc, b, I.n, x);
    FollowsAppend(m, I, LowerForTest(o, c, inc, b, I.n, x));
  }

  lemma ForTestGrows(o: Oracles, c: Expr, inc: Expr, b: Stmt, n: Id, x: Ctx)
    ensures LowerForTest(o, c, inc, b, n, x).n >= n
  {
    var pre := OptExpr(o, c, n + 2).n;
    LowerGrows(o, b, pre + 1, Ctx(Some(pre), Some(n + 1), x.rp));
    LowerGrows(o, b, n + 4, Ctx(Some(n + 3), Some(n + 1), x.rp));
    hide Lower;
  }

  lemma DroppedFor(o: Oracles, c: Expr, inc: Expr, b: Stmt, n: Id, x: Ctx)
    ensures FoldsLoop(o, c, b) && !o.isTrue(c) ==> LowerForTest(o, c, inc, b, n, x) == OptExpr(o, c, n)
  {
  }

  /** A for loop's body, continue point, last clause and closing cells, in the order the pass writes them. */
  lemma FinishForPut(o: Oracles, m: map<Id, Node>, head: seq<Cell>, B: Code, inc: Expr, top: Id, cp: Id, bp: Id)
    requires Count(B.cells, cp) == 0 && Count(B.cells, bp) == 0 && cp != bp && cp < B.n && bp < B.n
    ensures var code, post := FinishFor(o, head, B, inc, top, cp, bp), OptExpr(o, inc, B.n);
            && code.n == post.n + 1 && B.n <= post.n
            && IdsOf(code.cells) == IdsOf(head) + IdsOf(B.cells) + [cp] + IdsOf(post.cells) + [post.n, bp]
            && Put(m, code.cells)
               == Put(Put(Put(m, head)[cp := NPesudo][bp := NPesudo], B.cells), post.cells)[post.n := NJump(Some(top))]
  {
    EarlierThan(o, inc, B.n, bp);
    var code, post := FinishFor(o, head, B, inc, top, cp, bp), OptExpr(o, inc, B.n);
    var c := Cell(cp, NPesudo);
    assert B.n <= post.n;
    hide IdsOf, Put, Count, OptExpr;
    ClosePut(m, head + B.cells + [c], post.cells, top, bp, post.n);
    PutAround(m, head, B.cells, c, c);
    PutSwap(Put(m, head)[cp := NPesudo], B.cells, bp, NPesudo);
    PutSwap(Put(m, head), B.cells, cp, NPesudo);
  }

  lemma OptGrows(o: Oracles, e: Expr, n: Id)
    ensures OptExpr(o, e, n).n >= n
  {
  }

  lemma EndlessForIs(o: Oracles, c: Expr, inc: Expr, b: Stmt, n: Id, x: Ctx)
    requires FoldsLoop(o, c, b) && o.isTrue(c)
    ensures var pre := OptExpr(o, c, n + 2);
            var B := Lower(o, b, pre.n + 1, Ctx(Some(pre.n), Some(n + 1), x.rp));
            LowerForTest(o, c, inc, b, n, x) == FinishFor(o, [Cell(n, NPesudo)] + pre.cells, B, inc, n, n + 1, pre.n)
  {
  }

  lemma EndlessForReady(o: Oracles, c: Expr, inc: Expr, b: Stmt, n: Id, x: Ctx, m: map<Id, Node>)
    requires FoldsLoop(o, c, b) && o.isTrue(c) && ReadyBody(b, n)
    ensures var pre, all := OptExpr(o, c, n + 2), LowerForTest(o, c, inc, b, n, x);
            var y := Ctx(Some(pre.n), Some(n + 1), x.rp);
            var B := Lower(o, b, pre.n + 1, y);
            var post := OptExpr(o, inc, B.n);
            && Ready(b, pre.n + 1, y) && n + 2 <= pre.n && pre.n + 1 <= B.n <= post.n && all.n == post.n + 1
            && IdsOf(all.cells) ==
               [n] + IdsOf(pre.cells) + IdsOf(B.cells) + [n + 1] + IdsOf(post.cells) + [post.n, pre.n]
            && Put(m, all.cells)
               == Put(Put(Put(m[n := NPesudo][n + 1 := NPesudo], pre.cells)[pre.n := NPesudo], B.cells), post.cells)
                  [post.n := NJump(Some(n))]
  {
    hide Put, IdsOf, Count, Lower, LowerForTest, OptExpr, FoldsLoop, FinishFor;
    var pre := OptExpr(o, c, n + 2);
    var y := Ctx(Some(pre.n), Some(n + 1), x.rp);
    var B := Lower(o, b, pre.n + 1, y);
    var head := [Cell(n, NPesudo)] + pre.cells;
    EndlessForIs(o, c, inc, b, n, x);
    EarlierThan(o, c, n + 2, n + 1);
    OptGrows(o, c, n + 2);
    LowerIds(o, b, pre.n + 1, y, pre.n);
    LowerIds(o, b, pre.n + 1, y, n + 1);
    NotYet(b, n, pre.n + 1);
    FinishForPut(o, m, head, B, inc, n, n + 1, pre.n);
    PutOne(m, Cell(n, NPesudo));
    PutAppend(m, [Cell(n, NPesudo)], pre.cells);
    IdsAppend([Cell(n, NPesudo)], pre.cells);
    PutSwap(m[n := NPesudo], pre.cells, n + 1, NPesudo);
  }

  /** Identities handed out since are not in the tree. */
  lemma NotYet(b: Stmt, n: Id, m: Id)
    requires Below(NodeIds(b), n) && n <= m
    ensures Below(NodeIds(b), m) && n !in NodeIds(b) && forall id :: id >= n ==> id !in NodeIds(b)
  {
  }

  lemma TestedForReady(o: Oracles, c: Expr, inc: Expr, b: Stmt, n: Id, x: Ctx, m: map<Id, Node>)
    requires !FoldsLoop(o, c, b) && ReadyBody(b, n)
    ensures var y, all := Ctx(Some(n + 3), Some(n + 1), x.rp), LowerForTest(o, c, inc, b, n, x);
            var B := Lower(o, b, n + 4, y);
            var post := OptExpr(o, inc, B.n);
            && Ready(b, n + 4, y) && n + 4 <= B.n <= post.n && all.n == post.n + 1
            && IdsOf(all.cells) == [n, n + 2] + IdsOf(B.cells) + [n + 1] + IdsOf(post.cells) + [post.n, n + 3]
            && Put(m, all.cells)
               == Put(Put(m[n := NPesudo][n + 1 := NPesudo][n + 2 := NBranch(Plain(c), None, None)][n + 3 := NPesudo],
                      B.cells)
                      [n + 2 := NBranch(Plain(c), First(B.cells), Some(n + 3))], post.cells)[post.n := NJump(Some(n))]
  {
    var y := Ctx(Some(n + 3), Some(n + 1), x.rp);
    var B := Lower(o, b, n + 4, y);
    var head := TestedHead(n, n + 2, c, B.cells, n + 3);
    assert LowerForTest(o, c, inc, b, n, x) == FinishFor(o, head, B, inc, n, n + 1, n + 3);
    hide Put, IdsOf, Count, Lower, LowerForTest, OptExpr, FoldsLoop, FinishFor;
    NotYet(b, n, n + 4);
    LowerIds(o, b, n + 4, y, n + 1);
    LowerIds(o, b, n + 4, y, n + 2);
    LowerIds(o, b, n + 4, y, n + 3);
    FinishForPut(o, m, head, B, inc, n, n + 1, n + 3);
    PatchedHeadFor(m, n, c, B.cells);
  }

  lemma PatchedHeadFor(m: map<Id, Node>, n: Id, c: Expr, B: seq<Cell>)
    requires Count(B, n + 2) == 0
    ensures var full := NBranch(Plain(c), First(B), Some(n + 3));
            Put(m[n := NPesudo][n + 1 := NPesudo][n + 2 := NBranch(Plain(c), None, None)][n + 3 := NPesudo],
                B)[n + 2 := full]
            == Put(Put(m, TestedHead(n, n + 2, c, B, n + 3))[n + 1 := NPesudo][n + 3 := NPesudo], B)
    ensures IdsOf(TestedHead(n, n + 2, c, B, n + 3)) == [n, n + 2]
  {
    hide Put, IdsOf, Count;
    var full := NBranch(Plain(c), First(B), Some(n + 3));
    var m1: map<Id, Node> := m[n := NPesudo];
    var m2: map<Id, Node> := m1[n + 1 := NPesudo][n + 2 := NBranch(Plain(c), None, None)][n + 3 := NPesudo];
    PutTwo(m, Cell(n, NPesudo), Cell(n + 2, full));
    PutSwap(m2, B, n + 2, full);
    assert m2[n + 2 := full] == m1[n + 2 := full][n + 1 := NPesudo][n + 3 := NPesudo];
  }

  /** Writing a loop's branch first without targets and then with them comes to writing it with them. */
  lemma PatchedHead(m: map<Id, Node>, top: Id, branch: Id, c: Expr, B: seq<Cell>, bp: Id)
    requires Count(B, branch) == 0 && top != branch && bp != branch
    ensures var full := NBranch(Plain(c), First(B), Some(bp));
            Put(m[top := NPesudo][branch := NBranch(Plain(c), None, None)][bp := NPesudo], B)[branch := full]
            == Put(Put(m, TestedHead(top, branch, c, B, bp))[bp := NPesudo], B)
    ensures IdsOf(TestedHead(top, branch, c, B, bp)) == [top, branch]
  {
    hide Put, IdsOf, Count;
    var full := NBranch(Plain(c), First(B), Some(bp));
    var m1: map<Id, Node> := m[top := NPesudo];
    PutTwo(m, Cell(top, NPesudo), Cell(branch, full));
    PutSwap(m1[branch := NBranch(Plain(c), None, None)][bp := NPesudo], B, branch, full);
    assert m1[branch := NBranch(Plain(c), None, None)][bp := NPesudo][branch := full] ==
           m1[branch := full][bp := NPesudo];
  }

  // ----- The compare chain -----

  /** The store with the open branch's false target filled in. */
  function Patch(m: map<Id, Node>, open: Option<Id>, target: Option<Id>): map<Id, Node>
    requires open.Some? ==> open.value in m && m[open.value].NBranch?
  {
    if open.None? then m else m[open.value := m[open.value].(onFalse := target)]
  }

  lemma ChainStart(labels: seq<CaseLabel>, cells: seq<Cell>)
    ensures labels[0..] == labels
  {
  }

  /** One label of the chain: a default only changes the last jump, a case adds a branch and a jump. */
  lemma ChainStep(labels: seq<CaseLabel>, k: nat, sym: Id, dflt: Id, default: Id, n: Id,
                  m: map<Id, Node>, open: Option<Id>)
    requires k < |labels| && dflt == DefaultTarget(labels[k..], default)
    requires open.Some? ==> open.value in m && m[open.value].NBranch? && open.value < n
    ensures labels[k].DefaultLabel? ==>
              Chain(labels[k..], sym, dflt, n) == Chain(labels[k + 1..], sym, dflt, n)
              && dflt == DefaultTarget(labels[k + 1..], labels[k].id)
    ensures labels[k].CaseLabel? ==>
              var rest, all := Chain(labels[k + 1..], sym, dflt, n + 2), Chain(labels[k..], sym, dflt, n);
              var branch := NBranch(SelectorIs(sym, labels[k].e), Some(n), None);
              var m' := Patch(m, open, Some(n + 1))[n := NJump(Some(labels[k].id))][n + 1 := branch];
              && dflt == DefaultTarget(labels[k + 1..], default)
              && n + 2 <= rest.n == all.n && First(all.cells) == Some(n + 1)
              && IdsOf(all.cells) == [n + 1, n] + IdsOf(rest.cells)
              && Put(Patch(m, open, First(all.cells)), all.cells) ==
                 Put(Patch(m', Some(n + 1), First(rest.cells)), rest.cells)
  {
    assert labels[k..][1..] == labels[k + 1..] && labels[k..][0] == labels[k];
    if labels[k].CaseLabel? {
      var rest, all := Chain(labels[k + 1..], sym, dflt, n + 2), Chain(labels[k..], sym, dflt, n);
      ChainIds(labels[k + 1..], sym, dflt, n + 2, 0);
      var full := Cell(n + 1, NBranch(SelectorIs(sym, labels[k].e), Some(n), First(rest.cells)));
      var jump := Cell(n, NJump(Some(labels[k].id)));
      assert all.cells == [full, jump] + rest.cells;
      hide Put, IdsOf, Chain, DefaultTarget;
      var m0: map<Id, Node> := Patch(m, open, Some(n + 1));
      PutAppend(m0, [full, jump], rest.cells);
      IdsAppend([full, jump], rest.cells);
      PutTwo(m0, full, jump);
      var m1: map<Id, Node> := m0[n := jump.node][n + 1 := NBranch(SelectorIs(sym, labels[k].e), Some(n), None)];
      assert Patch(m1, Some(n + 1), First(rest.cells)) == m0[n + 1 := full.node][n := jump.node];
    }
  }

  lemma ChainEnd(labels: seq<CaseLabel>, sym: Id, default: Id, n: Id, m: map<Id, Node>, open: Option<Id>)
    requires open.Some? ==> open.value in m && m[open.value].NBranch? && open.value < n
    ensures DefaultTarget(labels[|labels|..], default) == default
    ensures var all, jump := Chain(labels[|labels|..], sym, default, n), NJump(Some(default));
            && all.n == n + 1 && First(all.cells) == Some(n)
            && IdsOf(all.cells) == [n]
            && Put(Patch(m, open, Some(n)), all.cells) == Patch(m[n := jump], open, Some(n))
  {
    assert labels[|labels|..] == [];
    PutOne(Patch(m, open, Some(n)), Cell(n, NJump(Some(default))));
  }

  lemma SwitchReady(o: Oracles, e: Expr, b: Stmt, labels: seq<CaseLabel>, n: Id, x: Ctx, m: map<Id, Node>)
    requires Ready(Switch(e, b, labels), n, x)
    ensures var all := Lower(o, Switch(e, b, labels), n, x);
            var assign := NExpr(SetSelector(n, e));
            if !ContainsLabel(b) then
              all.n == n + 2 && IdsOf(all.cells) == [n + 1] && Put(m, all.cells) == m[n + 1 := assign]
            else
              var chain := Chain(labels, n, DefaultTarget(labels, n + 2), n + 3);
              var y := Ctx(Some(n + 2), x.cp, x.rp);
              var B := Lower(o, b, chain.n, y);
              && Ready(b, chain.n, y) && n + 3 <= chain.n <= B.n == all.n
              && IdsOf(all.cells) == [n + 1] + IdsOf(chain.cells) + IdsOf(B.cells) + [n + 2]
              && Put(m, all.cells) == Put(Put(m[n + 1 := assign][n + 2 := NPesudo], chain.cells), B.cells)
  {
    var s := Switch(e, b, labels);
    assert NodeIds(b) == NodeIds(s);
    var assign, bp := Cell(n + 1, NExpr(SetSelector(n, e))), Cell(n + 2, NPesudo);
    PutOne(m, assign);
    if ContainsLabel(b) {
      var dflt := DefaultTarget(labels, n + 2);
      var chain := Chain(labels, n, dflt, n + 3);
      var y := Ctx(Some(n + 2), x.cp, x.rp);
      var B := Lower(o, b, chain.n, y);
      assert Lower(o, s, n, x) == Code([assign] + chain.cells + B.cells + [bp], B.n);
      ChainIds(labels, n, dflt, n + 3, n + 2);
      hide Put, IdsOf, Count, Lower, Chain;
      NotYet(b, n, chain.n);
      LowerIds(o, b, chain.n, y, n + 2);
      PutAround(m, [assign] + chain.cells, B.cells, bp, bp);
      PutAppend(m, [assign], chain.cells);
      IdsAppend([assign], chain.cells);
      PutSwap(m[n + 1 := assign.node], chain.cells, n + 2, NPesudo);
      PutSwap(Put(m[n + 1 := assign.node], chain.cells), B.cells, n + 2, NPesudo);
    }
  }

  // ----- The finished list -----

  /** Following the list through the store yields `cells`. */
  ghost predicate Reads(items: seq<Id>, nodes: map<Id, Node>, cells: seq<Cell>) {
    |items| == |cells| && forall i :: 0 <= i < |items| ==>
      items[i] in nodes && Cell(items[i], nodes[items[i]]) == cells[i]
  }

  lemma {:induction false} IdsAt(cells: seq<Cell>)
    ensures |IdsOf(cells)| == |cells| && forall i :: 0 <= i < |cells| ==> IdsOf(cells)[i] == cells[i].id
  {
    if cells != [] { IdsAt(cells[1..]); }
  }

  lemma {:induction false} PutAt(m: map<Id, Node>, cells: seq<Cell>, i: nat)
    requires i < |cells| && Count(cells, cells[i].id) == 1
    ensures cells[i].id in Put(m, cells) && Put(m, cells)[cells[i].id] == cells[i].node
    decreases cells
  {
    var c := cells[0];
    if i == 0 {
      PutSwap(m, cells[1..], c.id, c.node);
    } else {
      CountPlaced(cells[1..], i - 1);
      PutAt(m[c.id := c.node], cells[1..], i - 1);
    }
  }

  lemma FunctionReady(o: Oracles, fn: seq<Stmt>, n: Id, m: map<Id, Node>)
    requires ReadySeq(fn, n, Ctx(None, None, n))
    ensures ReadySeq(fn, n + 1, Ctx(None, None, n)) && LowerFunction(o, fn, n).n >= n + 1
    ensures var cells := LowerFunction(o, fn, n).cells;
            Reads([] + IdsOf(cells), Put(m[n := NPesudo], cells), cells)
  {
    var cells := LowerFunction(o, fn, n).cells;
    LowerSeqGrows(o, fn, n + 1, Ctx(None, None, n));
    NoNodeTwice(o, fn, n);
    IdsAt(cells);
    assert [] + IdsOf(cells) == IdsOf(cells);
    hide Put, Count, LowerFunction;
    forall i | 0 <= i < |cells|
      ensures cells[i].id in Put(m[n := NPesudo], cells) && Put(m[n := NPesudo], cells)[cells[i].id] == cells[i].node
    {
      CountPlaced(cells, i);
      OnlyOnce(cells, i);
      PutAt(m[n := NPesudo], cells, i);
    }
  }

  lemma OnlyOnce(cells: seq<Cell>, i: nat)
    requires Unique(cells) && i < |cells|
    ensures Count(cells, cells[i].id) == 1
  {
    CountPlaced(cells, i);
  }
}
