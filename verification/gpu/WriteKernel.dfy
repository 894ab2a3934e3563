// The write kernel under every interleaving of its work items, and what the read kernel's check says of a
// buffer that it, or the host, has filled.
module WriteKernel {
  import opened Partition
  import opened Kernel
  import opened Launches

  /** A work item in its loops, or returned. */
  datatype WritePc = At(n: nat, i: nat) | Returned

  datatype WriteState = WriteState(buffer: seq<Vec4>, items: seq<WritePc>)

  function Whole(val: nat): Vec4 {
    Vec4(val, val, val, val)
  }

  /** The launch p over the buffer p.input: every item at its start. */
  function WriteStart(p: Launch): WriteState {
    WriteState(p.input, seq(p.stride, gid => At(0, 0)))
  }

  predicate CanWrite(s: WriteState, gid: nat) {
    gid < |s.items| && s.items[gid] != Returned
  }

  /** One step of a work item: a test of a loop, or one store. */
  function Write(p: Launch, s: WriteState, gid: nat): WriteState
    requires CanWrite(s, gid)
  {
    var at := s.items[gid];
    if at.n >= p.nk then s.(items := s.items[gid := Returned])
    else if at.i >= p.ni then s.(items := s.items[gid := At(at.n + 1, 0)])
    else
      var idx := gid + at.i * p.stride;
      var buffer := if idx < |s.buffer| then s.buffer[idx := Whole(p.val)] else s.buffer;
      WriteState(buffer, s.items[gid := At(at.n, at.i + 1)])
  }

  predicate CanWriteAll(p: Launch, s: WriteState, moves: seq<nat>)
    decreases |moves|
  {
    moves == [] || (CanWrite(s, moves[0]) && CanWriteAll(p, Write(p, s, moves[0]), moves[1..]))
  }

  function WriteRun(p: Launch, s: WriteState, moves: seq<nat>): WriteState
    requires CanWriteAll(p, s, moves)
    decreases |moves|
  {
    if moves == [] then s else WriteRun(p, Write(p, s, moves[0]), moves[1..])
  }

  /** Vector i of an item has been written at least once. */
  predicate Passed(p: Launch, pc: WritePc, i: nat) {
    p.nk > 0 && (pc == Returned || pc.n > 0 || i < pc.i)
  }

  /** What has been passed holds val; what no item has passed holds what the launch found. */
  ghost predicate WriteOk(p: Launch, s: WriteState) {
    && |s.items| == p.stride && |s.buffer| == |p.input|
    && (forall gid :: 0 <= gid < p.stride ==> s.items[gid].At? ==> s.items[gid].i <= p.ni && s.items[gid].n <= p.nk)
    && (forall gid, i :: 0 <= gid < p.stride && 0 <= i < p.ni ==> CellOk(p, s, gid, i))
  }

  ghost predicate CellOk(p: Launch, s: WriteState, gid: nat, i: nat) {
    gid < |s.items| &&
    var k := gid + i * p.stride;
    k < |s.buffer| && k < |p.input| &&
    s.buffer[k] == if Passed(p, s.items[gid], i) then Whole(p.val) else p.input[k]
  }

  lemma {:induction false} StartsOk(p: Launch)
    requires Sized(p)
    ensures WriteOk(p, WriteStart(p))
  {
    forall gid, i | 0 <= gid < p.stride && 0 <= i < p.ni
      ensures CellOk(p, WriteStart(p), gid, i)
    {
      InRange(p, i, gid);
    }
  }

  /** A step of an item touches none of the vectors of another, nor those it is not at. */
  lemma {:induction false} WriteKeeps(p: Launch, s: WriteState, gid: nat)
    requires Sized(p) && WriteOk(p, s) && CanWrite(s, gid)
    ensures WriteOk(p, Write(p, s, gid))
  {
    hide Sized;
    var s' := Write(p, s, gid);
    forall g, i | 0 <= g < p.stride && 0 <= i < p.ni
      ensures CellOk(p, s', g, i)
    {
      assert CellOk(p, s, g, i);
      KeepsCell(p, s, gid, g, i);
    }
  }

  lemma {:induction false} KeepsCell(p: Launch, s: WriteState, gid: nat, g: nat, i: nat)
    requires Sized(p) && |s.items| == p.stride && |s.buffer| == |p.input| && CanWrite(s, gid)
    requires s.items[gid].i <= p.ni && g < p.stride && i < p.ni && CellOk(p, s, g, i)
    ensures CellOk(p, Write(p, s, gid), g, i)
  {
    hide Sized;
    var at := s.items[gid];
    if at.i < p.ni {
      OneVisitor(p, g, i, gid, at.i);
    }
  }

  /** Two visits meet only if they are one. */
  lemma {:induction false} OneVisitor(p: Launch, g: nat, i: nat, gid: nat, j: nat)
    requires Sized(p) && g < p.stride && gid < p.stride && i < p.ni && j < p.ni
    ensures gid + j * p.stride < |p.input|
    ensures g + i * p.stride == gid + j * p.stride <==> g == gid && i == j
  {
    InRange(p, i, g);
    InRange(p, j, gid);
    VisitedOnce(p, g + i * p.stride, gid, j);
    VisitedOnce(p, g + i * p.stride, g, i);
  }

  lemma {:induction false} WriteRunOk(p: Launch, s: WriteState, moves: seq<nat>)
    requires Sized(p) && WriteOk(p, s) && CanWriteAll(p, s, moves)
    ensures WriteOk(p, WriteRun(p, s, moves))
    decreases |moves|
  {
    hide Sized, WriteOk, CanWrite, Write;
    if moves != [] {
      WriteKeeps(p, s, moves[0]);
      WriteRunOk(p, Write(p, s, moves[0]), moves[1..]);
    }
  }

  /**
    * For every buffer and every interleaving of the work items: once all have returned, every word is val, or, with
    * a loop count of zero, nothing has been written.
    */
  lemma {:induction false} WritesEverything(p: Launch, moves: seq<nat>)
    requires Sized(p) && CanWriteAll(p, WriteStart(p), moves)
    requires forall gid :: 0 <= gid < p.stride ==> !CanWrite(WriteRun(p, WriteStart(p), moves), gid)
    ensures var s := WriteRun(p, WriteStart(p), moves);
            |s.buffer| == |p.input| &&
            if p.nk == 0 then s.buffer == p.input else AllWords(s.buffer, p.val, |s.buffer|)
  {
    StartsOk(p);
    WriteRunOk(p, WriteStart(p), moves);
    var s := WriteRun(p, WriteStart(p), moves);
    forall k: nat | k < |s.buffer|
      ensures s.buffer[k] == if p.nk == 0 then p.input[k] else Whole(p.val)
    {
      VisitedOnce(p, k, k % p.stride, k / p.stride);
      assert CellOk(p, s, k % p.stride, k / p.stride);
      assert !CanWrite(s, k % p.stride);
    }
  }

  /** How many steps an item has left. */
  function StepsLeft(p: Launch, pc: WritePc): nat {
    match pc
    case Returned => 0
    case At(n, i) =>
      if n >= p.nk then 1
      else
        MulMono(0, p.nk - n - 1, p.ni + 1);
        (p.nk - n - 1) * (p.ni + 1) + 1 + (if i <= p.ni then p.ni + 1 - i else 1)
  }

  function AllStepsLeft(p: Launch, items: seq<WritePc>): nat {
    if items == [] then 0 else StepsLeft(p, items[0]) + AllStepsLeft(p, items[1..])
  }

  lemma {:induction false} OneItemMoved(p: Launch, items: seq<WritePc>, gid: nat, pc: WritePc)
    requires gid < |items|
    ensures AllStepsLeft(p, items[gid := pc]) - AllStepsLeft(p, items) == StepsLeft(p, pc) - StepsLeft(p, items[gid])
    decreases gid
  {
    hide StepsLeft;
    if gid > 0 {
      assert items[gid := pc][1..] == items[1..][gid - 1 := pc];
      OneItemMoved(p, items[1..], gid - 1, pc);
    }
  }

  /** Every run ends: a run is never longer than the steps its items have left. */
  lemma {:induction false} WriteRunsEnd(p: Launch, s: WriteState, moves: seq<nat>)
    requires Sized(p) && WriteOk(p, s) && CanWriteAll(p, s, moves)
    ensures |moves| + AllStepsLeft(p, WriteRun(p, s, moves).items) == AllStepsLeft(p, s.items)
    decreases |moves|
  {
    hide Sized;
    if moves != [] {
      var s' := Write(p, s, moves[0]);
      WriteKeeps(p, s, moves[0]);
      OneItemMoved(p, s.items, moves[0], s'.items[moves[0]]);
      OneStepLess(p, s, moves[0]);
      WriteRunsEnd(p, s', moves[1..]);
    }
  }

  lemma {:induction false} OneStepLess(p: Launch, s: WriteState, gid: nat)
    requires |s.items| == p.stride && CanWrite(s, gid) && s.items[gid].i <= p.ni && s.items[gid].n <= p.nk
    ensures StepsLeft(p, Write(p, s, gid).items[gid]) + 1 == StepsLeft(p, s.items[gid])
  {
    var at := s.items[gid];
    if at.n + 1 < p.nk {
      var rest := p.nk - at.n - 2;
      assert (p.nk - at.n - 1) * (p.ni + 1) == rest * (p.ni + 1) + (p.ni + 1);
    }
  }

  // ----- the read kernel's check of a filled buffer -----

  /** What the write kernel has filled, the read kernel's check passes, whatever the two interleavings. */
  lemma {:induction false} WrittenIsVerified(w: Launch, moves: seq<nat>, p: Launch,
                                             start: State, turns: seq<Move>, nBytes: nat)
    requires Sized(w) && w.nk > 0 && CanWriteAll(w, WriteStart(w), moves)
    requires forall gid :: 0 <= gid < w.stride ==> !CanWrite(WriteRun(w, WriteStart(w), moves), gid)
    requires Proper(p) && p.input == WriteRun(w, WriteStart(w), moves).buffer
    requires Init(p, start) && CanRun(p, start, turns) && AllFinished(Run(p, start, turns))
    requires nBytes == |p.input| * ITEM && nBytes < UINT
    ensures var s := Run(p, start, turns); Outs(s, |s|) % UINT == nBytes / WORD <==> p.val == w.val
  {
    hide Proper, Init, CanRun, Run, AllFinished, Outs;
    WritesEverything(w, moves);
    NotEmpty(w);
    VerifyExactly(p, start, turns, nBytes);
    assert p.input[0] == Whole(w.val);
  }

  lemma {:induction false} NotEmpty(p: Launch)
    requires Sized(p)
    ensures |p.input| > 0
  {
    InRange(p, 0, 0);
  }

  /** The four bytes of a word, the lowest first. */
  function WordOf(bytes: seq<nat>, k: nat): nat
    requires 4 * k + 4 <= |bytes|
  {
    bytes[4 * k] + bytes[4 * k + 1] * 0x100 + bytes[4 * k + 2] * 0x1_0000 + bytes[4 * k + 3] * 0x100_0000
  }

  /** A buffer of bytes, as the vectors the kernel reads. */
  function VectorsOf(bytes: seq<nat>): seq<Vec4>
    requires |bytes| % ITEM == 0
  {
    seq(|bytes| / ITEM, k requires 0 <= k < |bytes| / ITEM =>
      Vec4(WordOf(bytes, 4 * k), WordOf(bytes, 4 * k + 1), WordOf(bytes, 4 * k + 2), WordOf(bytes, 4 * k + 3)))
  }

  /** The loop of timedKernel that repeats a byte in a word; the parts it joins share no bit, so or is addition. */
  method RepeatByte(v: nat) returns (val: nat)
    requires v < 0x100
    ensures val == WordOf([v, v, v, v], 0) < UINT
  {
    val := 0;
    var i := 0;
    var scale := 1;
    while i < WORD
      invariant 0 <= i <= WORD
      invariant scale == [1, 0x100, 0x1_0000, 0x100_0000, UINT][i]
      invariant val == [0, v, v * 0x101, v * 0x1_0101, v * 0x101_0101][i] && val < scale
    {
      val := val + v * scale;
      i, scale := i + 1, scale * 0x100;
    }
  }

  /** After the host has filled the buffer with a byte, the check passes exactly for that byte. */
  lemma {:induction false} FilledIsVerified(v: nat, u: nat, p: Launch, start: State, turns: seq<Move>, nBytes: nat)
    requires v < 0x100 && u < 0x100 && nBytes % ITEM == 0 && nBytes < UINT
    requires Proper(p) && p.val == WordOf([v, v, v, v], 0) && p.input == VectorsOf(seq(nBytes, k => u))
    requires Init(p, start) && CanRun(p, start, turns) && AllFinished(Run(p, start, turns))
    ensures var s := Run(p, start, turns); Outs(s, |s|) % UINT == nBytes / WORD <==> u == v
  {
    hide Init, CanRun, Run, AllFinished, Outs, Fits;
    NotEmpty(p);
    VerifyExactly(p, start, turns, nBytes);
    assert p.input[0] == Whole(WordOf([u, u, u, u], 0));
  }
}
