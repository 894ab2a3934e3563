// Scoped lookup (section 6.2.1 of ISO/IEC 9899:1999) over one flat hash with head insertion and purge by level.
// The hash is of the address of a name's copy, so the table is compared with a stack of scopes line by line.
module Scopes {
  import opened Wrappers
  import opened Hash

  /**
    * env[n] is scope n, its live declarations, the newest first; the last scope is the innermost. A scope may hold
    * a name twice, because the table accepts the second declaration if its copy falls on another line.
    */
  type Env = seq<seq<Sym>>

  /** All live declarations, the innermost scope first. */
  function Live(env: Env): seq<Sym> {
    if env == [] then [] else env[|env| - 1] + Live(env[..|env| - 1])
  }

  /** The innermost declaration of a name. */
  function Lookup(env: Env, name: Name): Option<Sym> {
    if env == [] then None
    else
      var here := First(env[|env| - 1], IsNamed(name));
      if here.Some? then here else Lookup(env[..|env| - 1], name)
  }

  /** The innermost declaration of a name in the scopes from `level` inwards. */
  function LookupFrom(env: Env, name: Name, level: nat): Option<Sym> {
    if |env| <= level then None
    else
      var here := First(env[|env| - 1], IsNamed(name));
      if here.Some? then here else LookupFrom(env[..|env| - 1], name, level)
  }

  /** Each scope holds its own level's declarations. */
  ghost predicate WellScoped(env: Env) {
    forall n, i :: 0 <= n < |env| && 0 <= i < |env[n]| ==> env[n][i].level == n
  }

  /** A hash of addresses: the line that a copy falls on. */
  type Lines = Addr -> nat

  /** The copy falls on line `at`. */
  function On(p: Sym -> bool, line: Lines, at: nat): Sym -> bool {
    (s: Sym) => p(s) && line(s.copy) == at
  }

  /** The elements for which q holds, in order. */
  function Only(l: seq<Sym>, q: Sym -> bool): seq<Sym> {
    if l == [] then [] else (if q(l[0]) then [l[0]] else []) + Only(l[1..], q)
  }

  /** The entries of a line with one name are the live declarations whose copies fall there, from the inside out. */
  ghost predicate LineHolds(t: Table, env: Env, line: Lines, at: nat, name: Name)
    requires at < |t.lines|
  {
    Only(t.lines[at], On(IsNamed(name), line, at)) == Only(Live(env), On(IsNamed(name), line, at))
  }

  ghost predicate Holds(t: Table, env: Env, line: Lines) {
    && (forall a: Addr :: line(a) < |t.lines|)
    && WellScoped(env)
    && (forall at, name :: 0 <= at < |t.lines| ==> LineHolds(t, env, line, at, name))
    && (forall at, j :: 0 <= at < |t.lines| && 0 <= j < |t.lines[at]| ==> line(t.lines[at][j].copy) == at)
  }

  // ----- sequences of entries -----

  lemma {:induction false} FirstHolds(l: seq<Sym>, p: Sym -> bool)
    ensures First(l, p).Some? ==> First(l, p).value in l && p(First(l, p).value)
    ensures First(l, p).Some? <==> exists i :: 0 <= i < |l| && p(l[i])
  {
    if l != [] {
      FirstHolds(l[1..], p);
      if i :| 0 <= i < |l| && p(l[i]) {
        assert i > 0 ==> l[1..][i - 1] == l[i];
      }
    }
  }

  lemma {:induction false} FirstAppend(a: seq<Sym>, b: seq<Sym>, p: Sym -> bool)
    ensures First(a + b, p) == if First(a, p).Some? then First(a, p) else First(b, p)
  {
    if a == [] {
      assert a + b == b;
    } else {
      assert (a + b)[1..] == a[1..] + b;
      FirstAppend(a[1..], b, p);
    }
  }

  lemma {:induction false} FirstOnly(l: seq<Sym>, p: Sym -> bool, q: Sym -> bool)
    requires forall s :: p(s) ==> q(s)
    ensures First(l, p) == First(Only(l, q), p)
  {
    if l != [] {
      FirstOnly(l[1..], p, q);
      FirstAppend(if q(l[0]) then [l[0]] else [], Only(l[1..], q), p);
    }
  }

  /** On the elements of a line two predicates may be the same. */
  lemma {:induction false} FirstSame(l: seq<Sym>, p: Sym -> bool, q: Sym -> bool)
    requires forall i :: 0 <= i < |l| ==> (p(l[i]) <==> q(l[i]))
    ensures First(l, p) == First(l, q) && DropFirst(l, p) == DropFirst(l, q)
  {
    if l != [] {
      FirstSame(l[1..], p, q);
    }
  }

  /** Looking on one line only finds the same exactly if what is to be found is on that line. */
  lemma {:induction false} FirstOn(l: seq<Sym>, p: Sym -> bool, line: Lines, at: nat)
    ensures First(l, On(p, line, at)) == First(l, p) <==>
            (First(l, p).Some? ==> line(First(l, p).value.copy) == at)
  {
    if l != [] {
      FirstOn(l[1..], p, line, at);
      FirstHolds(l[1..], On(p, line, at));
    }
  }

  lemma {:induction false} OnlyAppend(a: seq<Sym>, b: seq<Sym>, q: Sym -> bool)
    ensures Only(a + b, q) == Only(a, q) + Only(b, q)
  {
    if a == [] {
      assert a + b == b && Only(a, q) + Only(b, q) == Only(b, q);
    } else {
      assert (a + b)[1..] == a[1..] + b && (a + b)[0] == a[0];
      OnlyAppend(a[1..], b, q);
      var first := if q(a[0]) then [a[0]] else [];
      assert first + (Only(a[1..], q) + Only(b, q)) == (first + Only(a[1..], q)) + Only(b, q);
    }
  }

  lemma {:induction false} OnlyNone(l: seq<Sym>, q: Sym -> bool)
    requires forall i :: 0 <= i < |l| ==> !q(l[i])
    ensures Only(l, q) == []
  {
    if l != [] {
      OnlyNone(l[1..], q);
    }
  }

  lemma {:induction false} KeepNothing(p: Sym -> bool)
    ensures Keep([], p) == []
  {
  }

  lemma {:induction false} KeepStep(l: seq<Sym>, p: Sym -> bool, first: seq<Sym>)
    requires l != [] && first == if p(l[0]) then [] else [l[0]]
    ensures Keep(l, p) == first + Keep(l[1..], p)
  {
  }

  lemma {:induction false} KeepAppend(a: seq<Sym>, b: seq<Sym>, p: Sym -> bool)
    ensures Keep(a + b, p) == Keep(a, p) + Keep(b, p)
  {
    hide Keep;
    if a == [] {
      KeepNothing(p);
      assert a + b == b && Keep(a, p) + Keep(b, p) == Keep(b, p);
    } else {
      KeepAppend(a[1..], b, p);
      var first := if p(a[0]) then [] else [a[0]];
      KeepStep(a, p, first);
      assert (a + b)[0] == a[0] && (a + b)[1..] == a[1..] + b;
      KeepStep(a + b, p, first);
      assert first + (Keep(a[1..], p) + Keep(b, p)) == (first + Keep(a[1..], p)) + Keep(b, p);
    }
  }

  lemma {:induction false} KeepOnly(l: seq<Sym>, p: Sym -> bool, q: Sym -> bool)
    ensures Only(Keep(l, p), q) == Keep(Only(l, q), p)
  {
    if l != [] {
      KeepOnly(l[1..], p, q);
      OnlyAppend(if p(l[0]) then [] else [l[0]], Keep(l[1..], p), q);
      KeepAppend(if q(l[0]) then [l[0]] else [], Only(l[1..], q), p);
    }
  }

  lemma {:induction false} KeepIn(l: seq<Sym>, p: Sym -> bool)
    ensures forall s :: s in Keep(l, p) ==> s in l && !p(s)
  {
    if l != [] {
      KeepIn(l[1..], p);
      assert l == [l[0]] + l[1..];
    }
  }

  lemma {:induction false} KeepWhole(l: seq<Sym>, p: Sym -> bool)
    requires forall i :: 0 <= i < |l| ==> !p(l[i])
    ensures Keep(l, p) == l
  {
    if l != [] {
      KeepWhole(l[1..], p);
    }
  }

  lemma {:induction false} KeepNone(l: seq<Sym>, p: Sym -> bool)
    requires forall i :: 0 <= i < |l| ==> p(l[i])
    ensures Keep(l, p) == []
  {
    if l != [] {
      KeepNone(l[1..], p);
    }
  }

  /** Dropping the first p: seen through q it is dropped if p implies q, and unseen if p excludes q. */
  lemma {:induction false} DropOnly(l: seq<Sym>, p: Sym -> bool, q: Sym -> bool)
    ensures (forall s :: p(s) ==> q(s)) ==> Only(DropFirst(l, p), q) == DropFirst(Only(l, q), p)
    ensures (forall s :: p(s) ==> !q(s)) ==> Only(DropFirst(l, p), q) == Only(l, q)
  {
    if l != [] {
      DropOnly(l[1..], p, q);
      var rest := Only(l[1..], q);
      assert ([l[0]] + rest)[1..] == rest && [] + rest == rest;
      var dropped := DropFirst(l[1..], p);
      assert ([l[0]] + dropped)[1..] == dropped;
    }
  }

  lemma {:induction false} DropIn(l: seq<Sym>, p: Sym -> bool)
    ensures forall s :: s in DropFirst(l, p) ==> s in l
  {
    if l != [] {
      DropIn(l[1..], p);
      assert l == [l[0]] + l[1..];
    }
  }

  lemma {:induction false} DropAppend(a: seq<Sym>, b: seq<Sym>, p: Sym -> bool)
    ensures DropFirst(a + b, p) == if First(a, p).Some? then DropFirst(a, p) + b else a + DropFirst(b, p)
  {
    if a == [] {
      assert a + b == b;
    } else {
      assert (a + b)[1..] == a[1..] + b && (a + b)[0] == a[0];
      DropAppend(a[1..], b, p);
      assert a == [a[0]] + a[1..];
    }
  }

  // ----- lookups -----

  lemma {:induction false} LookupIs(env: Env, name: Name)
    ensures Lookup(env, name) == First(Live(env), IsNamed(name))
  {
    if env != [] {
      LookupIs(env[..|env| - 1], name);
      FirstAppend(env[|env| - 1], Live(env[..|env| - 1]), IsNamed(name));
    }
  }

  lemma {:induction false} LiveBelow(env: Env)
    requires WellScoped(env)
    ensures forall s :: s in Live(env) ==> s.level < |env|
  {
    if env != [] {
      LiveBelow(env[..|env| - 1]);
    }
  }

  lemma {:induction false} LookupFromIs(env: Env, name: Name, level: nat)
    requires WellScoped(env)
    ensures LookupFrom(env, name, level) == First(Live(env), IsNamedFrom(name, level))
  {
    if |env| <= level {
      LiveBelow(env);
      FirstHolds(Live(env), IsNamedFrom(name, level));
    } else {
      LookupFromIs(env[..|env| - 1], name, level);
      FirstSame(env[|env| - 1], IsNamed(name), IsNamedFrom(name, level));
      FirstAppend(env[|env| - 1], Live(env[..|env| - 1]), IsNamedFrom(name, level));
    }
  }

  /** What a search of one line for a name finds. */
  lemma {:induction false} FindOn(t: Table, env: Env, line: Lines, at: nat, name: Name, p: Sym -> bool)
    requires Holds(t, env, line) && at < |t.lines| && forall s :: p(s) ==> s.name == name
    ensures First(t.lines[at], p) == First(Live(env), On(p, line, at))
  {
    var q, r := On(IsNamed(name), line, at), On(p, line, at);
    FirstSame(t.lines[at], p, r);
    FirstOnly(t.lines[at], r, q);
    assert LineHolds(t, env, line, at, name);
    FirstOnly(Live(env), r, q);
  }

  /** ey_find_symbol finds the innermost declaration exactly if there is none, or its copy is on the key's line. */
  lemma {:induction false} FindExactly(t: Table, env: Env, line: Lines, name: Name, copy: Addr)
    requires Holds(t, env, line)
    ensures First(t.lines[line(copy)], IsNamed(name)) == Lookup(env, name) <==>
            (Lookup(env, name).Some? ==> line(Lookup(env, name).value.copy) == line(copy))
  {
    FindOn(t, env, line, line(copy), name, IsNamed(name));
    LookupIs(env, name);
    FirstOn(Live(env), IsNamed(name), line, line(copy));
  }

  /** The same for ey_find_level_symbol and the scopes from a level inwards. */
  lemma {:induction false} FindLevelExactly(t: Table, env: Env, line: Lines, name: Name, copy: Addr, level: nat)
    requires Holds(t, env, line)
    ensures First(t.lines[line(copy)], IsNamedFrom(name, level)) == LookupFrom(env, name, level) <==>
            (LookupFrom(env, name, level).Some? ==> line(LookupFrom(env, name, level).value.copy) == line(copy))
  {
    FindOn(t, env, line, line(copy), name, IsNamedFrom(name, level));
    LookupFromIs(env, name, level);
    FirstOn(Live(env), IsNamedFrom(name, level), line, line(copy));
  }

  // ----- insertion -----

  /** The stack with at least n scopes open. */
  function Open(env: Env, n: nat): (r: Env)
    ensures |r| == if |env| < n then n else |env|
    decreases n
  {
    if n <= |env| then env else Open(env, n - 1) + [[]]
  }

  function Scope(env: Env, level: nat): seq<Sym> {
    if level < |env| then env[level] else []
  }

  /** The stack with s declared in its scope, which is opened if need be. */
  function Declared(env: Env, s: Sym): Env {
    var r := Open(env, s.level + 1);
    r[s.level := [s] + r[s.level]]
  }

  lemma {:induction false} OneMoreScope(env: Env)
    ensures Live(env + [[]]) == Live(env)
  {
    assert (env + [[]])[..|env|] == env && [] + Live(env) == Live(env);
  }

  lemma {:induction false} OpenSame(env: Env, n: nat)
    ensures Live(Open(env, n)) == Live(env)
    ensures forall k :: 0 <= k < |Open(env, n)| ==> Open(env, n)[k] == Scope(env, k)
    decreases n
  {
    hide Live;
    if n > |env| {
      var r := Open(env, n - 1);
      OpenSame(env, n - 1);
      OneMoreScope(r);
      assert Open(env, n) == r + [[]];
      forall k | 0 <= k < |r + [[]]|
        ensures (r + [[]])[k] == Scope(env, k)
      {
        if k < |r| {
          assert (r + [[]])[k] == r[k];
        }
      }
    }
  }

  lemma {:induction false} OpenScoped(env: Env, n: nat)
    requires WellScoped(env)
    ensures WellScoped(Open(env, n))
  {
    hide Live, Open;
    OpenSame(env, n);
  }

  /** No live declaration that satisfies q is further in than `level`. */
  ghost predicate Within(env: Env, level: nat, q: Sym -> bool) {
    forall n, i :: level < n < |env| && 0 <= i < |env[n]| ==> !q(env[n][i])
  }

  /** Every live declaration of the name on the line of the copy is at the level or further out. */
  ghost predicate Innermost(env: Env, name: Name, level: nat, line: Lines, at: nat) {
    Within(env, level, On(IsNamed(name), line, at))
  }

  lemma {:induction false} LiveSplit(env: Env, q: Sym -> bool)
    requires env != []
    ensures Only(Live(env), q) == Only(env[|env| - 1], q) + Only(Live(env[..|env| - 1]), q)
  {
    OnlyAppend(env[|env| - 1], Live(env[..|env| - 1]), q);
  }

  lemma {:induction false} OnlyPut(env: Env, s: Sym, q: Sym -> bool)
    requires s.level < |env| && (q(s) ==> Within(env, s.level, q))
    ensures Only(Live(env[s.level := [s] + env[s.level]]), q) == (if q(s) then [s] else []) + Only(Live(env), q)
  {
    hide Live, Only;
    var env', top := env[s.level := [s] + env[s.level]], |env| - 1;
    LiveSplit(env, q);
    LiveSplit(env', q);
    if s.level == top {
      assert env'[..top] == env[..top];
      OnlyAppend([s], env[top], q);
      OnlyOne(s, q);
    } else {
      assert env'[..top] == env[..top][s.level := [s] + env[..top][s.level]];
      OnlyPut(env[..top], s, q);
      if q(s) {
        OnlyNone(env[top], q);
      }
    }
  }

  lemma {:induction false} OnlyOne(s: Sym, q: Sym -> bool)
    ensures Only([s], q) == if q(s) then [s] else []
  {
  }

  lemma {:induction false} OnlyDeclared(env: Env, s: Sym, q: Sym -> bool)
    requires q(s) ==> Within(env, s.level, q)
    ensures Only(Live(Declared(env, s)), q) == (if q(s) then [s] else []) + Only(Live(env), q)
  {
    var r := Open(env, s.level + 1);
    OpenSame(env, s.level + 1);
    if q(s) {
      forall n, i | s.level < n < |r| && 0 <= i < |r[n]|
        ensures !q(r[n][i])
      {
        assert r[n] == env[n];
      }
    }
    OnlyPut(r, s, q);
  }

  /** The scope has a declaration of the name whose copy is on the line. */
  ghost predicate HasOn(scope: seq<Sym>, name: Name, line: Lines, at: nat) {
    exists i :: 0 <= i < |scope| && scope[i].name == name && line(scope[i].copy) == at
  }

  lemma {:induction false} InLive(env: Env, s: Sym)
    ensures s in Live(env) <==> exists n :: 0 <= n < |env| && s in env[n]
  {
    if env != [] {
      var rest := env[..|env| - 1];
      InLive(rest, s);
      if n :| 0 <= n < |rest| && s in rest[n] {
        assert s in env[n];
      }
      if n :| 0 <= n < |env| && s in env[n] {
        assert n < |rest| ==> s in rest[n];
      }
    }
  }

  /** The table looks for a conflict in the scope, but only on the line. */
  lemma {:induction false} SameOn(t: Table, env: Env, line: Lines, at: nat, name: Name, level: nat)
    requires Holds(t, env, line) && at < |t.lines|
    ensures First(t.lines[at], IsSame(name, level)).Some? <==> HasOn(Scope(env, level), name, line, at)
  {
    var r := On(IsSame(name, level), line, at);
    FindOn(t, env, line, at, name, IsSame(name, level));
    FirstHolds(Live(env), r);
    if First(Live(env), r).Some? {
      var s := First(Live(env), r).value;
      InLive(env, s);
      var n :| 0 <= n < |env| && s in env[n];
      assert n == level && s in Scope(env, level);
    }
    if HasOn(Scope(env, level), name, line, at) {
      var scope := Scope(env, level);
      var i :| 0 <= i < |scope| && scope[i].name == name && line(scope[i].copy) == at;
      var s := env[level][i];
      InLive(env, s);
      assert s in env[level] && r(s);
    }
  }

  /** ey_insert_symbol at a level no live declaration of the name on that line is inside of. */
  lemma {:induction false} InsertAgrees(t: Table, env: Env, line: Lines, s: Sym, memory: bool)
    requires Holds(t, env, line) && Innermost(env, s.name, s.level, line, line(s.copy))
    ensures var (t', r) := Insert(t, line(s.copy), s, memory);
            var has := HasOn(Scope(env, s.level), s.name, line, line(s.copy));
            && (r == Conflict <==> memory && has)
            && (r == Done <==> memory && !has && t.count < t.limit)
            && (if r == Done then Holds(t', Declared(env, s), line) else t' == t)
  {
    SameOn(t, env, line, line(s.copy), s.name, s.level);
    var (t', r) := Insert(t, line(s.copy), s, memory);
    if r == Done {
      InsertHolds(t, env, line, s, t');
    }
  }

  lemma {:induction false} DeclaredScoped(env: Env, s: Sym)
    requires WellScoped(env)
    ensures WellScoped(Declared(env, s))
  {
    hide Open;
    OpenScoped(env, s.level + 1);
  }

  lemma {:induction false} InsertHolds(t: Table, env: Env, line: Lines, s: Sym, t': Table)
    requires Holds(t, env, line) && Innermost(env, s.name, s.level, line, line(s.copy))
    requires t'.lines == t.lines[line(s.copy) := [s] + t.lines[line(s.copy)]]
    ensures Holds(t', Declared(env, s), line)
  {
    DeclaredScoped(env, s);
    forall at, name | 0 <= at < |t'.lines|
      ensures LineHolds(t', Declared(env, s), line, at, name)
    {
      InsertLine(t, env, line, s, t', at, name);
    }
    forall at, j | 0 <= at < |t'.lines| && 0 <= j < |t'.lines[at]|
      ensures line(t'.lines[at][j].copy) == at
    {
      if at == line(s.copy) && j > 0 {
        assert t'.lines[at][j] == t.lines[at][j - 1];
      }
    }
  }

  lemma {:induction false} InsertLine(t: Table, env: Env, line: Lines, s: Sym, t': Table, at: nat, name: Name)
    requires line(s.copy) < |t.lines| && at < |t.lines| && LineHolds(t, env, line, at, name)
    requires Innermost(env, s.name, s.level, line, line(s.copy))
    requires t'.lines == t.lines[line(s.copy) := [s] + t.lines[line(s.copy)]]
    ensures LineHolds(t', Declared(env, s), line, at, name)
  {
    var q := On(IsNamed(name), line, at);
    OnlyDeclared(env, s, q);
    if line(s.copy) == at {
      OnlyAppend([s], t.lines[at], q);
      OnlyOne(s, q);
    } else {
      assert [] + Only(Live(env), q) == Only(Live(env), q);
    }
  }

  /** Head insertion is right for its line exactly when no live declaration of the name there is further in. */
  lemma {:induction false} InsertAgreesExactly(t: Table, env: Env, line: Lines, s: Sym)
    requires Holds(t, env, line) && Insert(t, line(s.copy), s, true).1 == Done
    ensures var t' := Insert(t, line(s.copy), s, true).0;
            First(t'.lines[line(s.copy)], IsNamed(s.name)) ==
            First(Live(Declared(env, s)), On(IsNamed(s.name), line, line(s.copy)))
            <==> Innermost(env, s.name, s.level, line, line(s.copy))
  {
    var q := On(IsNamed(s.name), line, line(s.copy));
    if Within(env, s.level, q) {
      InsertAgrees(t, env, line, s, true);
      FindOn(Insert(t, line(s.copy), s, true).0, Declared(env, s), line, line(s.copy), s.name, IsNamed(s.name));
    } else {
      var r := Open(env, s.level + 1);
      OpenSame(env, s.level + 1);
      DeclaredScoped(env, s);
      var n, i :| s.level < n < |env| && 0 <= i < |env[n]| && q(env[n][i]);
      assert r[n] == env[n] && Declared(env, s)[n] == r[n];
      FirstDeep(Declared(env, s), s.level, q, n, i);
    }
  }

  lemma {:induction false} FirstDeep(env: Env, level: nat, q: Sym -> bool, n: nat, i: nat)
    requires WellScoped(env) && level < n < |env| && i < |env[n]| && q(env[n][i])
    ensures First(Live(env), q).Some? && First(Live(env), q).value.level > level
  {
    var top := |env| - 1;
    FirstAppend(env[top], Live(env[..top]), q);
    FirstHolds(env[top], q);
    if n < top {
      FirstDeep(env[..top], level, q, n, i);
    }
  }

  /**
    * A lookup from the level on finds nothing exactly if an insertion of the same copy there is right for its line
    * and no conflict. Labels, tags and declarations are inserted after such a lookup.
    */
  lemma {:induction false} GuardSuffices(t: Table, env: Env, line: Lines, name: Name, copy: Addr, level: nat)
    requires Holds(t, env, line)
    ensures First(t.lines[line(copy)], IsNamedFrom(name, level)).None? <==>
            Innermost(env, name, level, line, line(copy)) && !HasOn(Scope(env, level), name, line, line(copy))
  {
    var at := line(copy);
    var r := On(IsNamedFrom(name, level), line, at);
    FindOn(t, env, line, at, name, IsNamedFrom(name, level));
    FirstHolds(Live(env), r);
    if First(Live(env), r).Some? {
      var s := First(Live(env), r).value;
      InLive(env, s);
      var n :| 0 <= n < |env| && s in env[n];
      var i :| 0 <= i < |env[n]| && env[n][i] == s;
      assert On(IsNamed(name), line, at)(env[n][i]);
      assert n == level ==> Scope(env, level)[i].name == name;
    } else {
      forall n, i | level <= n < |env| && 0 <= i < |env[n]|
        ensures !On(IsNamed(name), line, at)(env[n][i])
      {
        InLive(env, env[n][i]);
        assert env[n][i] in Live(env);
      }
    }
  }

  // ----- purging by level -----

  /** The scopes outside a level. */
  function Outside(env: Env, level: nat): Env {
    if level <= |env| then env[..level] else env
  }

  lemma {:induction false} LivePurged(env: Env, level: nat)
    requires WellScoped(env)
    ensures Keep(Live(env), IsFrom(level)) == Live(Outside(env, level))
  {
    if |env| <= level {
      assert Outside(env, level) == env;
      LiveBelow(env);
      KeepWhole(Live(env), IsFrom(level));
    } else {
      var top := |env| - 1;
      LivePurged(env[..top], level);
      assert Outside(env[..top], level) == Outside(env, level);
      KeepAppend(env[top], Live(env[..top]), IsFrom(level));
      KeepNone(env[top], IsFrom(level));
    }
  }

  /** ey_purge_symbol at a level leaves the scopes outside it. */
  lemma {:induction false} PurgeAgrees(t: Table, env: Env, line: Lines, level: nat)
    requires Holds(t, env, line) && Valid(t)
    ensures RemoveAll(t, IsFrom(level)).1 == Done
    ensures Holds(RemoveAll(t, IsFrom(level)).0, Outside(env, level), line)
  {
    var p := IsFrom(level);
    KeepTotal(t.lines, p);
    var t' := RemoveAll(t, p).0;
    forall at, name | 0 <= at < |t'.lines|
      ensures LineHolds(t', Outside(env, level), line, at, name)
    {
      var q := On(IsNamed(name), line, at);
      KeepAllIs(t.lines, p, at);
      KeepOnly(t.lines[at], p, q);
      assert LineHolds(t, env, line, at, name);
      KeepOnly(Live(env), p, q);
      LivePurged(env, level);
    }
    forall at, j | 0 <= at < |t'.lines| && 0 <= j < |t'.lines[at]|
      ensures line(t'.lines[at][j].copy) == at
    {
      KeepAllIs(t.lines, p, at);
      KeepIn(t.lines[at], p);
      assert t'.lines[at][j] in t.lines[at];
    }
  }

  // ----- removal of one symbol -----

  /** The stack without the newest declaration of the name in scope `level` whose copy is on the line. */
  function Withdrawn(env: Env, name: Name, level: nat, line: Lines, at: nat): Env {
    if level < |env| then env[level := DropFirst(env[level], On(IsSame(name, level), line, at))] else env
  }

  lemma {:induction false} LiveWithdrawn(env: Env, name: Name, level: nat, line: Lines, at: nat)
    requires WellScoped(env)
    ensures Live(Withdrawn(env, name, level, line, at)) == DropFirst(Live(env), On(IsSame(name, level), line, at))
  {
    hide DropFirst, First;
    var p := On(IsSame(name, level), line, at);
    if |env| <= level {
      LiveBelow(env);
      DropNothing(Live(env), p);
    } else {
      var top := |env| - 1;
      DropAppend(env[top], Live(env[..top]), p);
      FirstHolds(env[top], p);
      if level == top {
        TopWithdrawn(env, name, line, at);
      } else {
        LiveWithdrawn(env[..top], name, level, line, at);
        var below := Withdrawn(env[..top], name, level, line, at);
        assert Withdrawn(env, name, level, line, at) == below + [env[top]];
        assert (below + [env[top]])[..top] == below;
      }
    }
  }

  lemma {:induction false} TopWithdrawn(env: Env, name: Name, line: Lines, at: nat)
    requires WellScoped(env) && env != []
    ensures var top := |env| - 1;
            Live(Withdrawn(env, name, top, line, at)) == DropFirst(Live(env), On(IsSame(name, top), line, at))
  {
    hide DropFirst, First;
    var top := |env| - 1;
    var p := On(IsSame(name, top), line, at);
    var below := Live(env[..top]);
    assert Withdrawn(env, name, top, line, at) == env[..top] + [DropFirst(env[top], p)];
    assert (env[..top] + [DropFirst(env[top], p)])[..top] == env[..top];
    DropAppend(env[top], below, p);
    if First(env[top], p).None? {
      FirstHolds(env[top], p);
      DropNothing(env[top], p);
      LiveBelow(env[..top]);
      DropNothing(below, p);
    }
  }

  lemma {:induction false} DropNothing(l: seq<Sym>, p: Sym -> bool)
    requires forall i :: 0 <= i < |l| ==> !p(l[i])
    ensures DropFirst(l, p) == l
  {
    if l != [] {
      DropNothing(l[1..], p);
    }
  }

  /** ey_remove_symbol takes a declaration on the line of the copy out of its scope. */
  lemma {:induction false} RemoveAgrees(t: Table, env: Env, line: Lines, name: Name, copy: Addr, level: nat)
    requires Holds(t, env, line) && Valid(t)
    ensures var (t', r) := Remove(t, line(copy), name, level);
            && r == (if HasOn(Scope(env, level), name, line, line(copy)) then Done else NoKey)
            && Holds(t', Withdrawn(env, name, level, line, line(copy)), line)
  {
    var at := line(copy);
    SameOn(t, env, line, at, name, level);
    if HasOn(Scope(env, level), name, line, at) {
      TotalChange(t.lines, at, []);
      assert t.lines[at] != [];
      RemoveHolds(t, env, line, name, at, level, Remove(t, at, name, level).0);
    } else if level < |env| {
      DropNothing(env[level], On(IsSame(name, level), line, at));
      assert Withdrawn(env, name, level, line, at) == env;
    }
  }

  lemma {:induction false} RemoveHolds(t: Table, env: Env, line: Lines, name: Name, at: nat, level: nat, t': Table)
    requires Holds(t, env, line) && at < |t.lines|
    requires t'.lines == t.lines[at := DropFirst(t.lines[at], IsSame(name, level))]
    ensures Holds(t', Withdrawn(env, name, level, line, at), line)
  {
    var env', p := Withdrawn(env, name, level, line, at), On(IsSame(name, level), line, at);
    FirstSame(t.lines[at], IsSame(name, level), p);
    LiveWithdrawn(env, name, level, line, at);
    forall k, other | 0 <= k < |t'.lines|
      ensures LineHolds(t', env', line, k, other)
    {
      var q := On(IsNamed(other), line, k);
      assert LineHolds(t, env, line, k, other);
      DropOnly(t.lines[at], p, q);
      DropOnly(Live(env), p, q);
    }
    WithdrawnScoped(env, name, level, line, at);
    DropIn(t.lines[at], p);
    forall k, j | 0 <= k < |t'.lines| && 0 <= j < |t'.lines[k]|
      ensures line(t'.lines[k][j].copy) == k
    {
      if k == at {
        assert t'.lines[k][j] in t.lines[k];
      }
    }
  }

  lemma {:induction false} WithdrawnScoped(env: Env, name: Name, level: nat, line: Lines, at: nat)
    requires WellScoped(env)
    ensures WellScoped(Withdrawn(env, name, level, line, at))
  {
    if level < |env| {
      var p := On(IsSame(name, level), line, at);
      DropIn(env[level], p);
      forall i | 0 <= i < |DropFirst(env[level], p)|
        ensures DropFirst(env[level], p)[i].level == level
      {
        assert DropFirst(env[level], p)[i] in env[level];
      }
    }
  }

  // ----- runs -----

  /** What the parser does: open and close scopes, declare at any level, take a declaration back. */
  datatype Event = Push | Pop | Declare(s: Sym, memory: bool) | Withdraw(s: Sym)

  datatype Parser = Parser(table: Table, level: nat)

  function Act(c: Parser, e: Event, line: Lines): (c': Parser)
    requires forall a: Addr :: line(a) < |c.table.lines|
    ensures |c'.table.lines| == |c.table.lines|
  {
    match e
    case Push => c.(level := c.level + 1)
    case Pop => Parser(RemoveAll(c.table, IsFrom(c.level)).0, if c.level == 0 then 0 else c.level - 1)
    case Declare(s, memory) => c.(table := Insert(c.table, line(s.copy), s, memory).0)
    case Withdraw(s) => c.(table := Remove(c.table, line(s.copy), s.name, s.level).0)
  }

  /** The same on the stack; a declaration counts when the table accepts it. */
  function ActEnv(env: Env, c: Parser, e: Event, line: Lines): Env
    requires forall a: Addr :: line(a) < |c.table.lines|
  {
    match e
    case Push => Open(env, c.level + 2)
    case Pop => Outside(env, c.level)
    case Declare(s, memory) => if Insert(c.table, line(s.copy), s, memory).1 == Done then Declared(env, s) else env
    case Withdraw(s) => Withdrawn(env, s.name, s.level, line, line(s.copy))
  }

  ghost predicate InStep(c: Parser, env: Env, line: Lines) {
    Holds(c.table, env, line) && Valid(c.table)
  }

  /** No pop without a push, and no declaration outside a live one of its name on its line. */
  ghost predicate Legal(c: Parser, env: Env, e: Event, line: Lines) {
    match e
    case Pop => c.level > 0
    case Declare(s, _) => Innermost(env, s.name, s.level, line, line(s.copy))
    case _ => true
  }

  lemma {:induction false} ActAgrees(c: Parser, env: Env, e: Event, line: Lines)
    requires InStep(c, env, line) && Legal(c, env, e, line)
    ensures InStep(Act(c, e, line), ActEnv(env, c, e, line), line)
  {
    var t := c.table;
    match e
    case Push =>
      OpenHolds(t, env, line, c.level + 2);
    case Pop =>
      PurgeAgrees(t, env, line, c.level);
      KeepTotal(t.lines, IsFrom(c.level));
    case Declare(s, memory) =>
      InsertAgrees(t, env, line, s, memory);
      CountKept(t, line(s.copy), s, memory, s.name, s.level, IsFrom(c.level));
    case Withdraw(s) =>
      RemoveAgrees(t, env, line, s.name, s.copy, s.level);
      CountKept(t, line(s.copy), s, true, s.name, s.level, IsFrom(c.level));
  }

  lemma {:induction false} OpenHolds(t: Table, env: Env, line: Lines, n: nat)
    requires Holds(t, env, line)
    ensures Holds(t, Open(env, n), line)
  {
    OpenSame(env, n);
    OpenScoped(env, n);
    forall at, name | 0 <= at < |t.lines|
      ensures LineHolds(t, Open(env, n), line, at, name)
    {
      assert LineHolds(t, env, line, at, name);
    }
  }

  function ActAll(c: Parser, es: seq<Event>, line: Lines): (c': Parser)
    requires forall a: Addr :: line(a) < |c.table.lines|
    ensures |c'.table.lines| == |c.table.lines|
    decreases |es|
  {
    if es == [] then c else ActAll(Act(c, es[0], line), es[1..], line)
  }

  function ActAllEnv(env: Env, c: Parser, es: seq<Event>, line: Lines): Env
    requires forall a: Addr :: line(a) < |c.table.lines|
    decreases |es|
  {
    if es == [] then env else ActAllEnv(ActEnv(env, c, es[0], line), Act(c, es[0], line), es[1..], line)
  }

  ghost predicate AllLegal(c: Parser, env: Env, es: seq<Event>, line: Lines)
    requires forall a: Addr :: line(a) < |c.table.lines|
    decreases |es|
  {
    es == [] ||
    (Legal(c, env, es[0], line) && AllLegal(Act(c, es[0], line), ActEnv(env, c, es[0], line), es[1..], line))
  }

  lemma {:induction false} RunsInStep(c: Parser, env: Env, es: seq<Event>, line: Lines)
    requires InStep(c, env, line) && AllLegal(c, env, es, line)
    ensures InStep(ActAll(c, es, line), ActAllEnv(env, c, es, line), line)
    decreases |es|
  {
    hide Legal, Act, ActEnv;
    if es != [] {
      ActAgrees(c, env, es[0], line);
      RunsInStep(Act(c, es[0], line), ActEnv(env, c, es[0], line), es[1..], line);
    }
  }

  /**
    * Over every run and for every hash of addresses: each lookup in the flat table gives what the stack of
    * scopes gives exactly if that is nothing, or a declaration whose copy of the name falls on the key's line.
    */
  lemma {:induction false} RunsAgreeExactly(c: Parser, env: Env, es: seq<Event>, line: Lines,
                                            name: Name, copy: Addr, level: nat)
    requires InStep(c, env, line) && AllLegal(c, env, es, line)
    ensures var l, env' := ActAll(c, es, line).table.lines[line(copy)], ActAllEnv(env, c, es, line);
            && (First(l, IsNamed(name)) == Lookup(env', name) <==>
                (Lookup(env', name).Some? ==> line(Lookup(env', name).value.copy) == line(copy)))
            && (First(l, IsNamedFrom(name, level)) == LookupFrom(env', name, level) <==>
                (LookupFrom(env', name, level).Some? ==>
                   line(LookupFrom(env', name, level).value.copy) == line(copy)))
  {
    RunsInStep(c, env, es, line);
    FindExactly(ActAll(c, es, line).table, ActAllEnv(env, c, es, line), line, name, copy);
    FindLevelExactly(ActAll(c, es, line).table, ActAllEnv(env, c, es, line), line, name, copy, level);
  }

  // ----- levels -----

  /** How many scopes the events leave open beyond those before; Pop at depth 0 closes none. */
  function Depth(es: seq<Event>): int {
    if es == [] then 0
    else (if es[0].Push? then 1 else if es[0].Pop? then -1 else 0) + Depth(es[1..])
  }

  /** No pop without its push, from `open` scopes on. */
  predicate Nested(es: seq<Event>, open: nat) {
    es == [] ||
    match es[0]
    case Push => Nested(es[1..], open + 1)
    case Pop => open > 0 && Nested(es[1..], open - 1)
    case _ => Nested(es[1..], open)
  }

  /** After a run the level is what it was, plus pushes, less pops. */
  lemma {:induction false} LevelCounts(c: Parser, es: seq<Event>, line: Lines)
    requires (forall a: Addr :: line(a) < |c.table.lines|) && Nested(es, c.level)
    ensures ActAll(c, es, line).level == c.level + Depth(es)
    decreases |es|
  {
    if es != [] {
      LevelCounts(Act(c, es[0], line), es[1..], line);
    }
  }

  lemma {:induction false} RunsValid(c: Parser, es: seq<Event>, line: Lines)
    requires (forall a: Addr :: line(a) < |c.table.lines|) && Valid(c.table)
    ensures Valid(ActAll(c, es, line).table)
    decreases |es|
  {
    hide Valid;
    if es != [] {
      ActValid(c, es[0], line);
      RunsValid(Act(c, es[0], line), es[1..], line);
    }
  }

  lemma {:induction false} ActValid(c: Parser, e: Event, line: Lines)
    requires (forall a: Addr :: line(a) < |c.table.lines|) && Valid(c.table)
    ensures Valid(Act(c, e, line).table)
  {
    var t := c.table;
    match e
    case Push =>
    case Pop => KeepTotal(t.lines, IsFrom(c.level));
    case Declare(s, memory) => CountKept(t, line(s.copy), s, memory, s.name, s.level, IsFrom(c.level));
    case Withdraw(s) => CountKept(t, line(s.copy), s, true, s.name, s.level, IsFrom(c.level));
  }

  lemma {:induction false} RunAppend(c: Parser, a: seq<Event>, b: seq<Event>, line: Lines)
    requires forall x: Addr :: line(x) < |c.table.lines|
    ensures ActAll(c, a + b, line) == ActAll(ActAll(c, a, line), b, line)
    decreases |a|
  {
    hide Act;
    if a == [] {
      assert a + b == b;
    } else {
      assert (a + b)[1..] == a[1..] + b && (a + b)[0] == a[0];
      RunAppend(Act(c, a[0], line), a[1..], b, line);
    }
  }

  /** A block: after its end the level is what it was before, and no lookup finds a declaration further in than that. */
  lemma {:induction false} BlockCloses(c: Parser, es: seq<Event>, line: Lines, at: nat, p: Sym -> bool)
    requires (forall a: Addr :: line(a) < |c.table.lines|) && Valid(c.table) && at < |c.table.lines|
    requires Nested(es, 0) && Depth(es) == 0
    ensures var c' := ActAll(c, [Push] + es + [Pop], line);
            && c'.level == c.level
            && (First(c'.table.lines[at], p).Some? ==> First(c'.table.lines[at], p).value.level <= c.level)
  {
    var c1 := Act(c, Push, line);
    assert ([Push] + es + [Pop])[1..] == es + [Pop];
    NestedDeeper(es, 0, c.level + 1);
    LevelCounts(c1, es, line);
    RunsValid(c1, es, line);
    RunAppend(c1, es, [Pop], line);
    var c2 := ActAll(c1, es, line);
    assert [Pop][1..] == [] && ActAll(Act(c2, Pop, line), [], line) == Act(c2, Pop, line);
    KeepTotal(c2.table.lines, IsFrom(c2.level));
    KeepAllIs(c2.table.lines, IsFrom(c2.level), at);
    KeepIn(c2.table.lines[at], IsFrom(c2.level));
    FirstHolds(Keep(c2.table.lines[at], IsFrom(c2.level)), p);
  }

  lemma {:induction false} NestedDeeper(es: seq<Event>, open: nat, more: nat)
    requires Nested(es, open)
    ensures Nested(es, open + more)
  {
    if es != [] {
      match es[0]
      case Push => NestedDeeper(es[1..], open + 1, more);
      case Pop => NestedDeeper(es[1..], open - 1, more);
      case _ => NestedDeeper(es[1..], open, more);
    }
  }

  /** A pop takes no declaration that is outside the scope it closes. */
  lemma {:induction false} PopKeepsOuter(c: Parser, line: Lines, at: nat)
    requires Valid(c.table) && at < |c.table.lines| && forall a: Addr :: line(a) < |c.table.lines|
    ensures forall s :: s in c.table.lines[at] && s.level < c.level ==> s in Act(c, Pop, line).table.lines[at]
  {
    KeepTotal(c.table.lines, IsFrom(c.level));
    KeepAllIs(c.table.lines, IsFrom(c.level), at);
    KeepsOthers(c.table.lines[at], IsFrom(c.level));
  }

  lemma {:induction false} KeepsOthers(l: seq<Sym>, p: Sym -> bool)
    ensures forall s :: s in l && !p(s) ==> s in Keep(l, p)
  {
    if l != [] {
      KeepsOthers(l[1..], p);
      assert l == [l[0]] + l[1..];
    }
  }

  // ----- callers whose copies of a name fall on one line -----

  type Home = Name -> nat

  /** Every copy is on its name's line, and no name is declared twice. */
  ghost predicate ScopeAtHome(scope: seq<Sym>, line: Lines, home: Home) {
    && (forall i :: 0 <= i < |scope| ==> line(scope[i].copy) == home(scope[i].name))
    && (forall i, j :: 0 <= i < j < |scope| ==> scope[i].name != scope[j].name)
  }

  ghost predicate AtHome(env: Env, line: Lines, home: Home) {
    forall n :: 0 <= n < |env| ==> ScopeAtHome(env[n], line, home)
  }

  ghost predicate DeclaresAtHome(es: seq<Event>, line: Lines, home: Home) {
    forall i :: 0 <= i < |es| && es[i].Declare? ==> line(es[i].s.copy) == home(es[i].s.name)
  }

  lemma {:induction false} DropAtHome(l: seq<Sym>, p: Sym -> bool, line: Lines, home: Home)
    requires ScopeAtHome(l, line, home)
    ensures ScopeAtHome(DropFirst(l, p), line, home)
  {
    if l != [] && !p(l[0]) {
      DropAtHome(l[1..], p, line, home);
      DropIn(l[1..], p);
      var r := DropFirst(l[1..], p);
      assert DropFirst(l, p) == [l[0]] + r;
      forall j | 0 <= j < |r|
        ensures r[j].name != l[0].name
      {
        assert r[j] in l[1..];
      }
    }
  }

  lemma {:induction false} ActAtHome(c: Parser, env: Env, e: Event, line: Lines, home: Home)
    requires InStep(c, env, line) && Legal(c, env, e, line) && AtHome(env, line, home)
    requires e.Declare? ==> line(e.s.copy) == home(e.s.name)
    ensures AtHome(ActEnv(env, c, e, line), line, home)
  {
    hide ScopeAtHome, Open, Valid, Holds, Declared, Withdrawn, HasOn;
    match e
    case Push => OpenAtHome(env, c.level + 2, line, home);
    case Pop =>
    case Declare(s, memory) =>
      InsertAgrees(c.table, env, line, s, memory);
      if !HasOn(Scope(env, s.level), s.name, line, line(s.copy)) {
        DeclaredAtHome(env, s, line, home);
      }
    case Withdraw(s) => WithdrawnAtHome(env, s.name, s.level, line, line(s.copy), home);
  }

  lemma {:induction false} DeclaredAtHome(env: Env, s: Sym, line: Lines, home: Home)
    requires AtHome(env, line, home) && line(s.copy) == home(s.name)
    requires !HasOn(Scope(env, s.level), s.name, line, line(s.copy))
    ensures AtHome(Declared(env, s), line, home)
  {
    hide ScopeAtHome, Open, HasOn;
    OpenAtHome(env, s.level + 1, line, home);
    OpenSame(env, s.level + 1);
    OneMoreAtHome(Open(env, s.level + 1)[s.level], s, line, home);
  }

  lemma {:induction false} WithdrawnAtHome(env: Env, name: Name, level: nat, line: Lines, at: nat, home: Home)
    requires AtHome(env, line, home)
    ensures AtHome(Withdrawn(env, name, level, line, at), line, home)
  {
    hide ScopeAtHome;
    if level < |env| {
      DropAtHome(env[level], On(IsSame(name, level), line, at), line, home);
    }
  }

  lemma {:induction false} OneMoreAtHome(scope: seq<Sym>, s: Sym, line: Lines, home: Home)
    requires ScopeAtHome(scope, line, home) && line(s.copy) == home(s.name)
    requires !HasOn(scope, s.name, line, line(s.copy))
    ensures ScopeAtHome([s] + scope, line, home)
  {
  }

  lemma {:induction false} OpenAtHome(env: Env, n: nat, line: Lines, home: Home)
    requires AtHome(env, line, home)
    ensures AtHome(Open(env, n), line, home)
  {
    hide Open, Live;
    OpenSame(env, n);
    forall k | 0 <= k < |Open(env, n)|
      ensures ScopeAtHome(Open(env, n)[k], line, home)
    {
      assert Open(env, n)[k] == Scope(env, k);
    }
  }

  lemma {:induction false} RunsAtHome(c: Parser, env: Env, es: seq<Event>, line: Lines, home: Home)
    requires InStep(c, env, line) && AllLegal(c, env, es, line) && AtHome(env, line, home)
    requires DeclaresAtHome(es, line, home)
    ensures AtHome(ActAllEnv(env, c, es, line), line, home)
    decreases |es|
  {
    hide Legal, Act, ActEnv, AtHome;
    if es != [] {
      ActAgrees(c, env, es[0], line);
      ActAtHome(c, env, es[0], line, home);
      RunsAtHome(Act(c, es[0], line), ActEnv(env, c, es[0], line), es[1..], line, home);
    }
  }

  /**
    * Where all copies of a name fall on one line, over every run: each lookup gives what the stack of scopes
    * gives, and no scope comes to hold a name twice.
    */
  lemma {:induction false} RunsAgree(c: Parser, env: Env, es: seq<Event>, line: Lines, home: Home,
                                     name: Name, copy: Addr, level: nat)
    requires InStep(c, env, line) && AllLegal(c, env, es, line) && AtHome(env, line, home)
    requires DeclaresAtHome(es, line, home) && line(copy) == home(name)
    ensures var l, env' := ActAll(c, es, line).table.lines[line(copy)], ActAllEnv(env, c, es, line);
            && First(l, IsNamed(name)) == Lookup(env', name)
            && First(l, IsNamedFrom(name, level)) == LookupFrom(env', name, level)
            && AtHome(env', line, home)
  {
    RunsInStep(c, env, es, line);
    RunsAtHome(c, env, es, line, home);
    RunsAgreeExactly(c, env, es, line, name, copy, level);
    var env' := ActAllEnv(env, c, es, line);
    LookupIs(env', name);
    LookupFromIs(env', name, level);
    FirstHolds(Live(env'), IsNamed(name));
    FirstHolds(Live(env'), IsNamedFrom(name, level));
    forall s | s in Live(env')
      ensures line(s.copy) == home(s.name)
    {
      InLive(env', s);
      var n :| 0 <= n < |env'| && s in env'[n];
    }
  }

  // ----- the source's hash -----

  /** The line of an address in a table of n lines. */
  function AddressLine(n: nat): Lines
    requires n > 0
  {
    (a: Addr) => LineOf(n, NameHash(a))
  }

  /** A fresh table at level 0. */
  lemma {:induction false} StartsInStep(t: Table, line: Lines)
    requires t.lines != [] && t.count == 0 && forall i :: 0 <= i < |t.lines| ==> t.lines[i] == []
    requires forall a: Addr :: line(a) < |t.lines|
    ensures InStep(Parser(t, 0), [[]], line)
  {
    NoEntries(t.lines);
    assert Live([[]]) == [];
  }

  lemma {:induction false} AndSame(a: nat)
    ensures And(a, a) == a
  {
    if a > 0 {
      AndSame(a / 2);
    }
  }

  lemma {:induction false} AndZero(a: nat)
    ensures And(a, 0) == 0
  {
  }

  /** Two copies of one text on different lines, in a table of any size that ey_hash_init makes. */
  lemma {:induction false} CopiesApart(power: nat)
    ensures var n := LineCount(power);
            8 <= n && AddressLine(n)(0x8_0000_0000) == 0 && AddressLine(n)(8 * (n - 1)) == n - 1
  {
    hide And, LineCount;
    LinesInBounds(power, 0);
    AndSame(LineCount(power) - 1);
    AndZero(LineCount(power) - 1);
  }

  lemma {:induction false} OneEvent(c: Parser, env: Env, e: Event, line: Lines)
    requires forall a: Addr :: line(a) < |c.table.lines|
    ensures ActAll(c, [e], line) == Act(c, e, line) && ActAllEnv(env, c, [e], line) == ActEnv(env, c, e, line)
    ensures AllLegal(c, env, [e], line) <==> Legal(c, env, e, line)
  {
    hide Act, ActEnv, Legal;
    assert [e][1..] == [] && [e] != [] && [e][0] == e;
    assert ActAll(Act(c, e, line), [], line) == Act(c, e, line);
    assert ActAllEnv(ActEnv(env, c, e, line), Act(c, e, line), [], line) == ActEnv(env, c, e, line);
    assert AllLegal(Act(c, e, line), ActEnv(env, c, e, line), [], line);
  }

  /** `int a; a;` with two copies of `a`: the use does not find the declaration, and `int a; int a;` is no conflict. */
  lemma {:induction false} TwoCopies(power: nat, t: Table, name: Name, id: nat)
    requires |t.lines| == LineCount(power) && t.count == 0 && t.limit >= 2
    requires forall i :: 0 <= i < |t.lines| ==> t.lines[i] == []
    ensures |t.lines| > 0
    ensures var line, used := AddressLine(|t.lines|), 8 * (|t.lines| - 1);
            var c, env, es := Parser(t, 0), [[]], [Declare(Sym(name, 0x8_0000_0000, 0, id), true)];
            && InStep(c, env, line) && AllLegal(c, env, es, line)
            && Lookup(ActAllEnv(env, c, es, line), name).Some?
            && First(ActAll(c, es, line).table.lines[line(used)], IsNamed(name)) == None
            && Insert(ActAll(c, es, line).table, line(used), Sym(name, used, 0, id + 1), true).1 == Done
  {
    CopiesApart(power);
    var line, used := AddressLine(|t.lines|), 8 * (|t.lines| - 1);
    var c, s := Parser(t, 0), Sym(name, 0x8_0000_0000, 0, id);
    var env: Env, e := [[]], Declare(s, true);
    StartsInStep(t, line);
    OneEvent(c, env, e, line);
    assert Open(env, 1) == env && [s] + env[0] == [s];
    assert Declared(env, s) == [[s]];
  }
}
