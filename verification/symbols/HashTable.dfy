// The hash table in place: an array of lines, scanned and rewritten entry by entry.
module HashTable {
  import opened Wrappers
  import opened Hash

  class HashTable {
    const lines: array<seq<Sym>>
    const limit: nat
    var count: nat

    ghost function Value(): Table
      reads this, lines
    {
      Table(lines[..], count, limit)
    }

    /** ey_hash_create, the clamping of its parameters included. */
    constructor (power: nat, limit: nat)
      ensures Valid(Value()) && fresh(lines) && count == 0
      ensures lines.Length == LineCount(power) && this.limit == if limit < MIN_LIMIT then MIN_LIMIT else limit
      ensures forall i :: 0 <= i < lines.Length ==> lines[i] == []
    {
      LinesInBounds(power, 0);
      var n := LineCount(power);
      var table := new seq<Sym>[n](_ => []);
      this.limit := if limit < MIN_LIMIT then MIN_LIMIT else limit;
      lines := table;
      count := 0;
      new;
      NoEntries(lines[..]);
    }

    /** ey_hash_find_ex: the first entry of the key's line that compares equal. */
    method FindEx(key: nat, compare: Sym -> bool) returns (s: Option<Sym>)
      requires lines.Length > 0
      ensures s == First(lines[LineOf(lines.Length, key)], compare)
    {
      var at := LineOf(lines.Length, key);
      var l := lines[at];
      var i := 0;
      while i < |l|
        invariant 0 <= i <= |l|
        invariant First(l, compare) == First(l[i..], compare)
      {
        if compare(l[i]) {
          return Some(l[i]);
        }
        i := i + 1;
      }
      return None;
    }

    /** ey_hash_insert. */
    method Put(key: nat, s: Sym, memory: bool) returns (r: Outcome)
      requires lines.Length > 0 && Valid(Value())
      modifies this, lines
      ensures (Value(), r) == Insert(old(Value()), LineOf(lines.Length, key), s, memory)
      ensures Valid(Value())
    {
      var at := LineOf(lines.Length, key);
      CountKept(Value(), at, s, memory, s.name, s.level, IsFrom(0));
      if !memory {
        return NoMemory;
      }
      var found := FindEx(key, IsSame(s.name, s.level));
      if found.Some? {
        return Conflict;
      }
      if count >= limit {
        return Limit;
      }
      count := count + 1;
      lines[at] := [s] + lines[at];
      return Done;
    }

    /** ey_hash_remove. */
    method Take(key: nat, name: Name, level: nat) returns (r: Outcome)
      requires lines.Length > 0 && Valid(Value())
      modifies this, lines
      ensures (Value(), r) == Remove(old(Value()), LineOf(lines.Length, key), name, level)
      ensures Valid(Value())
    {
      hide Total, First, DropFirst;
      var at := LineOf(lines.Length, key);
      var compare := IsSame(name, level);
      CountKept(Value(), at, Sym(name, 0, level, 0), true, name, level, compare);
      var l := lines[at];
      var i := 0;
      while i < |l|
        invariant 0 <= i <= |l|
        invariant Value() == old(Value())
        invariant First(l, compare) == First(l[i..], compare)
        invariant DropFirst(l, compare) == l[..i] + DropFirst(l[i..], compare)
      {
        DropNext(l, i, compare);
        if compare(l[i]) {
          assert First(l, compare).Some?;
          assert Remove(Value(), at, name, level).1 != Crashed;
          count := count - 1;
          lines[at] := l[..i] + l[i + 1..];
          return Done;
        }
        i := i + 1;
      }
      assert l[i..] == [];
      NoneFirst(compare);
      return NoKey;
    }

    /** One line of ey_hash_remove_all. */
    method PurgeLine(at: nat, compare: Sym -> bool)
      requires at < lines.Length && |lines[at]| <= count
      modifies this, lines
      ensures lines[..] == old(lines[..])[at := Keep(old(lines[at]), compare)]
      ensures count == old(count) - (|old(lines[at])| - |Keep(old(lines[at]), compare)|)
    {
      hide Keep;
      var i := 0;
      ghost var start := lines[at];
      while i < |lines[at]|
        invariant 0 <= i <= |lines[at]|
        invariant Keep(start, compare) == lines[at][..i] + Keep(lines[at][i..], compare)
        invariant count == old(count) - (|start| - |lines[at]|) && |lines[at]| <= count
        invariant lines[..] == old(lines[..])[at := lines[at]]
        decreases |lines[at]| - i
      {
        var l := lines[at];
        KeepNext(l, i, compare);
        if compare(l[i]) {
          count := count - 1;
          lines[at] := l[..i] + l[i + 1..];
          assert lines[at][..i] == l[..i] && lines[at][i..] == l[i + 1..];
        } else {
          i := i + 1;
        }
      }
      KeepNone(lines[at], compare);
    }

    /** ey_hash_remove_all: the counter is never found at zero. */
    method Purge(compare: Sym -> bool)
      requires Valid(Value())
      modifies this, lines
      ensures (Value(), Done) == RemoveAll(old(Value()), compare)
      ensures Valid(Value())
    {
      hide Keep, KeepAll, Total;
      ghost var start := lines[..];
      KeepTotal(start, compare);
      var k := 0;
      while k < lines.Length
        invariant 0 <= k <= lines.Length
        invariant lines[..] == KeepAll(start, compare)[..k] + start[k..]
        invariant count == Total(lines[..]) && count <= old(count)
      {
        ghost var before := lines[..];
        TotalChange(before, k, Keep(before[k], compare));
        KeepLength(before[k], compare);
        KeepAllIs(start, compare, k);
        assert before[k] == start[k];
        PurgeLine(k, compare);
        k := k + 1;
      }
      assert lines[..] == KeepAll(start, compare);
    }
  }

  lemma {:induction false} KeepNext(l: seq<Sym>, i: nat, p: Sym -> bool)
    requires i < |l|
    ensures l[..i] + Keep(l[i..], p) ==
            if p(l[i]) then l[..i] + Keep(l[i + 1..], p) else l[..i + 1] + Keep(l[i + 1..], p)
  {
    assert l[i..][1..] == l[i + 1..];
    assert l[..i] + [l[i]] == l[..i + 1];
  }

  lemma {:induction false} NoneFirst(p: Sym -> bool)
    ensures First([], p) == None
  {
  }

  lemma {:induction false} DropNext(l: seq<Sym>, i: nat, p: Sym -> bool)
    requires i < |l|
    ensures First(l[i..], p) == if p(l[i]) then Some(l[i]) else First(l[i + 1..], p)
    ensures l[..i] + DropFirst(l[i..], p) ==
            if p(l[i]) then l[..i] + l[i + 1..] else l[..i + 1] + DropFirst(l[i + 1..], p)
  {
    assert l[i..][1..] == l[i + 1..];
    if !p(l[i]) {
      var rest := DropFirst(l[i + 1..], p);
      assert DropFirst(l[i..], p) == [l[i]] + rest;
      assert l[..i] + ([l[i]] + rest) == l[..i + 1] + rest;
    }
  }

  lemma {:induction false} KeepNone(l: seq<Sym>, p: Sym -> bool)
    ensures l[..|l|] + Keep(l[|l|..], p) == l
  {
  }
}
