// The hash table of ey_hash.c: lines of entries, a shared counter and a limit.
module Hash {
  import opened Wrappers

  /** The text of a name, which strcmp compares. */
  type Name(==, !new)

  /** Where a copy of a text stands; every occurrence of an identifier has a copy of its own. */
  type Addr = nat

  /** An entry's value: the part of ey_symbol_t that keys look at; `copy` is the name's address. */
  datatype Sym = Sym(name: Name, copy: Addr, level: nat, id: nat)

  // ----- how many lines, and which -----

  /** `&` and `^` of C on non-negative integers. */
  function And(a: nat, b: nat): (r: nat)
    ensures r <= a && r <= b
  {
    if a == 0 || b == 0 then 0
    else 2 * And(a / 2, b / 2) + (if a % 2 == 1 && b % 2 == 1 then 1 else 0)
  }

  function Xor(a: nat, b: nat): nat {
    if a == 0 && b == 0 then 0
    else 2 * Xor(a / 2, b / 2) + (if a % 2 != b % 2 then 1 else 0)
  }

  const MIN_POWER: nat := 10
  const MAX_POWER: nat := 20
  const MIN_LIMIT: nat := 8192

  /** The power in bounds that is nearest. */
  function Clamp(power: nat): (p: nat)
    ensures MIN_POWER <= p <= MAX_POWER
    ensures power < p ==> p == MIN_POWER
    ensures p < power ==> p == MAX_POWER
  {
    if power < MIN_POWER then MIN_POWER else if power > MAX_POWER then MAX_POWER else power
  }

  /** `2^power2_size`, which in C is an exclusive or. */
  function LineCount(power: nat): nat {
    Xor(2, Clamp(power))
  }

  /** hash_symbol_name: the copy's address, not its text. */
  function NameHash(copy: Addr): nat {
    copy / 8 % 0x1_0000_0000
  }

  /** `mask & gen_fn(key)` with mask one less than the number of lines. */
  function LineOf(lines: nat, key: nat): nat
    requires lines > 0
  {
    And(lines - 1, key)
  }

  /** The exclusive or leaves between 8 and 22 lines, and every key's line is one of them. */
  lemma {:induction false} LinesInBounds(power: nat, key: nat)
    ensures 8 <= LineCount(power) <= 22
    ensures LineOf(LineCount(power), key) < LineCount(power)
  {
    var p := Clamp(power);
    XorTwo(p);
  }

  lemma {:induction false} XorStep(a: nat, b: nat)
    requires a != 0 || b != 0
    ensures Xor(a, b) == 2 * Xor(a / 2, b / 2) + (if a % 2 != b % 2 then 1 else 0)
  {
  }

  lemma {:induction false} XorTwo(p: nat)
    requires 8 <= p < 32
    ensures Xor(2, p) == if p / 2 % 2 == 1 then p - 2 else p + 2
  {
    hide Xor;
    XorStep(2, p);
    XorStep(1, p / 2);
    XorZero(p / 2 / 2);
  }

  lemma {:induction false} XorZero(q: nat)
    ensures Xor(0, q) == q
  {
    if q > 0 {
      XorZero(q / 2);
    }
  }

  /** Bit k of a number. */
  predicate Bit(n: nat, k: nat) {
    if k == 0 then n % 2 == 1 else Bit(n / 2, k - 1)
  }

  lemma {:induction false} NoBit(k: nat)
    ensures !Bit(0, k)
  {
    if k > 0 {
      NoBit(k - 1);
    }
  }

  /** Bit by bit the two operators are what C says. */
  lemma {:induction false} BitwiseExactly(a: nat, b: nat, k: nat)
    ensures Bit(And(a, b), k) <==> Bit(a, k) && Bit(b, k)
    ensures Bit(Xor(a, b), k) <==> (Bit(a, k) != Bit(b, k))
  {
    if k > 0 {
      BitwiseExactly(a / 2, b / 2, k - 1);
    }
    NoBit(k);
  }

  // ----- what happens to a line -----

  function First(l: seq<Sym>, p: Sym -> bool): Option<Sym> {
    if l == [] then None else if p(l[0]) then Some(l[0]) else First(l[1..], p)
  }

  function DropFirst(l: seq<Sym>, p: Sym -> bool): seq<Sym> {
    if l == [] then [] else if p(l[0]) then l[1..] else [l[0]] + DropFirst(l[1..], p)
  }

  function Keep(l: seq<Sym>, p: Sym -> bool): seq<Sym> {
    if l == [] then [] else (if p(l[0]) then [] else [l[0]]) + Keep(l[1..], p)
  }

  /** compare_symbol, find_symbol_compare, find_level_symbol_compare and purge_symbol_compare, for their keys. */
  function IsSame(name: Name, level: nat): Sym -> bool {
    (s: Sym) => s.level == level && s.name == name
  }

  function IsNamed(name: Name): Sym -> bool {
    (s: Sym) => s.name == name
  }

  function IsNamedFrom(name: Name, level: nat): Sym -> bool {
    (s: Sym) => s.name == name && level <= s.level
  }

  function IsFrom(level: nat): Sym -> bool {
    (s: Sym) => level <= s.level
  }

  /** The return codes; Crashed is the store through a null pointer when the counter is found at zero. */
  datatype Outcome = Done | NoMemory | Conflict | Limit | NoKey | Crashed

  /** The table: its lines, the counter and the limit. */
  datatype Table = Table(lines: seq<seq<Sym>>, count: nat, limit: nat)

  function Total(lines: seq<seq<Sym>>): nat {
    if lines == [] then 0 else |lines[0]| + Total(lines[1..])
  }

  ghost predicate Valid(t: Table) {
    t.lines != [] && t.count == Total(t.lines) && t.count <= t.limit
  }

  /** ey_hash_insert; `memory` says whether the slab has an entry to give. */
  function Insert(t: Table, at: nat, s: Sym, memory: bool): (Table, Outcome)
    requires at < |t.lines|
  {
    if !memory then (t, NoMemory)
    else if First(t.lines[at], IsSame(s.name, s.level)).Some? then (t, Conflict)
    else if t.count >= t.limit then (t, Limit)
    else (t.(lines := t.lines[at := [s] + t.lines[at]], count := t.count + 1), Done)
  }

  /** ey_hash_remove. */
  function Remove(t: Table, at: nat, name: Name, level: nat): (Table, Outcome)
    requires at < |t.lines|
  {
    if First(t.lines[at], IsSame(name, level)).None? then (t, NoKey)
    else if t.count == 0 then (t, Crashed)
    else (t.(lines := t.lines[at := DropFirst(t.lines[at], IsSame(name, level))], count := t.count - 1), Done)
  }

  function KeepAll(lines: seq<seq<Sym>>, p: Sym -> bool): (r: seq<seq<Sym>>)
    ensures |r| == |lines|
  {
    if lines == [] then [] else [Keep(lines[0], p)] + KeepAll(lines[1..], p)
  }

  /** ey_hash_remove_all. */
  function RemoveAll(t: Table, p: Sym -> bool): (Table, Outcome) {
    var lines := KeepAll(t.lines, p);
    if t.count + Total(lines) < Total(t.lines) then (t, Crashed)
    else (t.(lines := lines, count := t.count + Total(lines) - Total(t.lines)), Done)
  }

  // ----- the counter -----

  lemma {:induction false} TotalChange(lines: seq<seq<Sym>>, at: nat, l: seq<Sym>)
    requires at < |lines|
    ensures Total(lines[at := l]) == Total(lines) - |lines[at]| + |l|
    ensures |lines[at]| <= Total(lines)
  {
    if at == 0 {
      assert lines[at := l][1..] == lines[1..];
    } else {
      TotalChange(lines[1..], at - 1, l);
      assert lines[at := l][1..] == lines[1..][at - 1 := l];
    }
  }

  lemma {:induction false} DropLength(l: seq<Sym>, p: Sym -> bool)
    ensures |DropFirst(l, p)| == |l| - (if First(l, p).Some? then 1 else 0)
  {
    if l != [] {
      DropLength(l[1..], p);
    }
  }

  lemma {:induction false} KeepLength(l: seq<Sym>, p: Sym -> bool)
    ensures |Keep(l, p)| <= |l|
  {
    if l != [] {
      KeepLength(l[1..], p);
    }
  }

  lemma {:induction false} KeepTotal(lines: seq<seq<Sym>>, p: Sym -> bool)
    ensures Total(KeepAll(lines, p)) <= Total(lines)
  {
    if lines != [] {
      KeepLength(lines[0], p);
      KeepTotal(lines[1..], p);
      assert KeepAll(lines, p)[1..] == KeepAll(lines[1..], p);
    }
  }

  /** The counter is the number of entries and stays within the limit, so no removal finds it at zero. */
  lemma {:induction false} CountKept(t: Table, at: nat, s: Sym, memory: bool, name: Name, level: nat, p: Sym -> bool)
    requires Valid(t) && at < |t.lines|
    ensures Valid(Insert(t, at, s, memory).0) && Valid(Remove(t, at, name, level).0) && Valid(RemoveAll(t, p).0)
    ensures Remove(t, at, name, level).1 in {Done, NoKey} && RemoveAll(t, p).1 == Done
  {
    TotalChange(t.lines, at, [s] + t.lines[at]);
    TotalChange(t.lines, at, DropFirst(t.lines[at], IsSame(name, level)));
    DropLength(t.lines[at], IsSame(name, level));
    KeepTotal(t.lines, p);
    if First(t.lines[at], IsSame(name, level)).Some? {
      assert |t.lines[at]| > 0;
    }
  }

  lemma {:induction false} NoEntries(lines: seq<seq<Sym>>)
    requires forall i :: 0 <= i < |lines| ==> lines[i] == []
    ensures Total(lines) == 0
  {
    if lines != [] {
      NoEntries(lines[1..]);
    }
  }

  lemma {:induction false} KeepAllIs(lines: seq<seq<Sym>>, p: Sym -> bool, i: nat)
    requires i < |lines|
    ensures KeepAll(lines, p)[i] == Keep(lines[i], p)
  {
    if i > 0 {
      KeepAllIs(lines[1..], p, i - 1);
    }
  }
}
