/**
 The instructions that move fields between registers, scratch registers and memory, the constants
 loaded or added, and the circular and one-bit shifts, said nibble by nibble.
 */
module Moves {
  import opened Digits
  import opened Fields
  import opened Memory
  import opened ReturnStack
  import opened Interrupts
  import opened Instructions
  import opened Machine
  import opened Step
  import opened Laws
  import opened Listing
  import opened Manual

  lemma InGroup81(w: seq<int>)
    requires Nibbles(w) && w[0] == 8 && w[1] == 1
    ensures DecodeAt(w) == Group81(w)
  {
    InGroup8(w);
    hide DecodeAt, Group81;
  }

  // ------------------------------------------------------------- scratch registers

  predicate UsesScratch(w: seq<int>)
    requires Nibbles(w)
  {
    (w[0] == 1 && w[1] <= 2) || (w[0] == 8 && w[1] == 1 && w[2] == 10 && w[4] <= 2)
  }

  // The letters of the listing: the register moved, and the number of the scratch register.
  const MOVED := "AAAAAAAACCCCCCCC"
  const SCRATCH: seq<nat> := [0, 1, 2, 3, 4, 1, 2, 3, 0, 1, 2, 3, 4, 1, 2, 3]

  lemma ScratchTables(k: nat)
    requires k < 16
    ensures Scratch(k) == SCRATCH[k] < 5 && AorC(k) == RegNamed(MOVED[k])
  {
    Sixteen(k);
  }

  /** Field f of a register set to v, and the rest of the register kept. */
  ghost predicate FieldSet(r: seq<int>, r': seq<int>, p: nat, f: nat, v: seq<int>)
  {
    p < 16 && f < 19 && |r| == |r'| == 16 && Field(r', p, f) == v &&
    forall i :: 0 <= i < 16 && !(GetStart(p, f) <= i <= GetEnd(p, f)) ==> r'[i] == r[i]
  }

  /** Kind 0: to scratch register j; kind 1: from it; kind 2: exchanged. */
  ghost predicate ScratchMeans(c: Core, d: Core, kind: int, x: char, j: nat, f: nat)
  {
    var r, r' := Get(c, RegNamed(x)), Get(d, RegNamed(x));
    c.P < 16 && f < 19 && j < 5 == |c.R| == |d.R| && |r| == |c.R[j]| == 16 &&
    d == Set(c, RegNamed(x), r').(R := c.R[j := d.R[j]]) &&
    (if kind == 1 then d.R[j] == c.R[j] else FieldSet(c.R[j], d.R[j], c.P, f, Field(r, c.P, f))) &&
    if kind == 0 then r' == r else FieldSet(r, r', c.P, f, Field(c.R[j], c.P, f))
  }

  lemma PatchSets(r: seq<int>, p: nat, f: nat, v: seq<int>)
    requires |r| == 16 && p < 16 && f < 19 && |v| == GetEnd(p, f) - GetStart(p, f) + 1
    ensures FieldSet(r, Patch(r, GetStart(p, f), v), p, f, v)
  {
    FieldOfPatch(r, GetStart(p, f), v);
    PatchKeeps(r, GetStart(p, f), v);
    hide GetStart, GetEnd, Patch;
  }

  lemma FieldLength(r: seq<int>, p: nat, f: nat)
    requires |r| == 16 && p < 16 && f < 19
    ensures |Field(r, p, f)| == GetEnd(p, f) - GetStart(p, f) + 1
  {
    hide GetStart, GetEnd;
  }

  lemma SaveMeans(c: Core, k: nat, x: char, f: nat)
    requires CoreOk(c) && k < 5 && f < 19
    ensures ScratchMeans(c, After(c, ToScratch(k, RegNamed(x), f)), 0, x, k, f)
    ensures ScratchMeans(c, After(c, FromScratch(RegNamed(x), k, f)), 1, x, k, f)
  {
    var r := RegNamed(x);
    hide *;
    LengthsOf(c);
    RegLength(c, r);
    AfterSave(c, k, r, f);
    FieldIs(c, r, f);
    FieldLength(Get(c, r), c.P, f);
    FieldLength(c.R[k], c.P, f);
    PatchSets(c.R[k], c.P, f, FieldOf(c, r, f));
    PatchSets(Get(c, r), c.P, f, Field(c.R[k], c.P, f));
    SaveShape(c, After(c, ToScratch(k, r, f)), k, x, f);
    BringShape(c, After(c, FromScratch(r, k, f)), k, x, f);
  }

  lemma RegLength(c: Core, r: Reg)
    requires CoreOk(c)
    ensures |Get(c, r)| == 16
  {
  }

  lemma FieldIs(c: Core, r: Reg, f: nat)
    requires c.P < 16 && f < 19 && |Get(c, r)| == 16
    ensures FieldOf(c, r, f) == Field(Get(c, r), c.P, f)
  {
    hide GetStart, GetEnd;
  }

  lemma SaveShape(c: Core, d: Core, k: nat, x: char, f: nat)
    requires c.P < 16 && f < 19 && k < 5 == |c.R| && |c.R[k]| == |Get(c, RegNamed(x))| == 16
    requires var v := Field(Get(c, RegNamed(x)), c.P, f);
             |v| == GetEnd(c.P, f) - GetStart(c.P, f) + 1 &&
             d == c.(R := c.R[k := Patch(c.R[k], GetStart(c.P, f), v)]) &&
             FieldSet(c.R[k], Patch(c.R[k], GetStart(c.P, f), v), c.P, f, v)
    ensures ScratchMeans(c, d, 0, x, k, f)
  {
    SetPointerKeeps(c, 0, c.D0, RegNamed(x));
    assert Get(d, RegNamed(x)) == Get(c, RegNamed(x));
    hide GetStart, GetEnd, Patch, FieldSet, Field;
  }

  lemma BringShape(c: Core, d: Core, k: nat, x: char, f: nat)
    requires c.P < 16 && f < 19 && k < 5 == |c.R| && |c.R[k]| == |Get(c, RegNamed(x))| == 16
    requires var v := Field(c.R[k], c.P, f);
             |v| == GetEnd(c.P, f) - GetStart(c.P, f) + 1 && d == SetField(c, RegNamed(x), f, v) &&
             FieldSet(Get(c, RegNamed(x)), Patch(Get(c, RegNamed(x)), GetStart(c.P, f), v), c.P, f, v)
    ensures ScratchMeans(c, d, 1, x, k, f)
  {
    hide GetStart, GetEnd, Patch, FieldSet, Field;
    assert c.R[k := c.R[k]] == c.R;
  }

  lemma SwapShape(c: Core, d: Core, k: nat, x: char, f: nat, y: seq<int>, z: seq<int>)
    requires c.P < 16 && f < 19 && k < 5 == |c.R| && |c.R[k]| == |Get(c, RegNamed(x))| == 16
    requires d == Set(c, RegNamed(x), y).(R := c.R[k := z])
    requires FieldSet(Get(c, RegNamed(x)), y, c.P, f, Field(c.R[k], c.P, f))
    requires FieldSet(c.R[k], z, c.P, f, Field(Get(c, RegNamed(x)), c.P, f))
    ensures ScratchMeans(c, d, 2, x, k, f)
  {
    hide GetStart, GetEnd, FieldSet, Field;
  }

  lemma ExchangeMeans(c: Core, k: nat, x: char, f: nat)
    requires CoreOk(c) && k < 5 && f < 19
    ensures ScratchMeans(c, After(c, ExchScratch(RegNamed(x), k, f)), 2, x, k, f)
  {
    var r := RegNamed(x);
    hide *;
    LengthsOf(c);
    RegLength(c, r);
    AfterScratch(c, k, r, f);
    FieldIs(c, r, f);
    FieldLength(Get(c, r), c.P, f);
    FieldLength(c.R[k], c.P, f);
    var a, b := Field(Get(c, r), c.P, f), Field(c.R[k], c.P, f);
    FieldRange(Get(c, r), c.P, f);
    FieldRange(c.R[k], c.P, f);
    PatchSets(c.R[k], c.P, f, a);
    PatchSets(Get(c, r), c.P, f, b);
    SwapShape(c, After(c, ExchScratch(r, k, f)), k, x, f, Patch(Get(c, r), GetStart(c.P, f), b),
              Patch(c.R[k], GetStart(c.P, f), a));
  }

  lemma FieldRange(r: seq<int>, p: nat, f: nat)
    requires |r| == 16 && p < 16 && f < 19
    ensures var s, v := GetStart(p, f), Field(r, p, f); s + |v| <= 16 && r[s..s + |v|] == v
  {
    hide GetStart, GetEnd;
  }

  /** The kind of move, its operand nibble and the field. */
  function ScratchOperands(w: seq<int>): (int, int, int)
    requires Nibbles(w) && UsesScratch(w)
  {
    if w[0] == 1 then (w[1], w[2], 7) else (w[4], w[5], w[3])
  }

  lemma ScratchDecodes(w: seq<int>)
    requires Nibbles(w) && UsesScratch(w)
    ensures var (kind, k, f) := ScratchOperands(w);
            0 <= kind <= 2 && 0 <= k < 16 && 0 <= f < 16 &&
            DecodeAt(w) == Inline(ScratchGroup(kind, k, f), if w[0] == 1 then 3 else 6)
  {
    assert forall i :: 0 <= i < 6 ==> 0 <= w[i] < 16;
    if w[0] == 1 { InGroup1(w); } else { InGroup81(w); }
    hide DecodeAt, ScratchGroup, PointerGroup, TransferGroup, TransferNGroup, AddGroup;
  }

  lemma ScratchGroupMeans(c: Core, kind: nat, k: nat, f: nat)
    requires CoreOk(c) && kind < 3 && k < 16 && f < 19
    ensures SCRATCH[k] < 5 && ScratchMeans(c, After(c, ScratchGroup(kind, k, f)), kind, MOVED[k], SCRATCH[k], f)
  {
    ScratchTables(k);
    SaveMeans(c, SCRATCH[k], MOVED[k], f);
    ExchangeMeans(c, SCRATCH[k], MOVED[k], f);
    hide CoreOk, ScratchMeans, After, Scratch, AorC;
  }

  /** Rn=A, A=Rn, ARnEX and the same of C, whole or by field: of the eight operands three scratch registers have two. */
  lemma ScratchMoves(s: Saturn, w: seq<int>)
    requires At(s, w) && Nibbles(w) && UsesScratch(w)
    ensures Leaves(s, Next(s), if w[0] == 1 then 3 else 6)
    ensures var (kind, k, f) := ScratchOperands(w);
            0 <= k < 16 && 0 <= f && ScratchMeans(s.core, Next(s), kind, MOVED[k], SCRATCH[k], f)
  {
    hide *;
    AtOk(s, w);
    AllNibbles(w);
    ScratchDecodes(w);
    var (kind, k, f) := ScratchOperands(w);
    Does(s, w, ScratchGroup(kind, k, f), if w[0] == 1 then 3 else 6);
    StepLeft(s, After(s.core, ScratchGroup(kind, k, f)), if w[0] == 1 then 3 else 6);
    ScratchGroupMeans(s.core, kind, k, f);
  }

  // ------------------------------------------------------------- constants

  /** Digits put into register x from position P upwards, around its end; the rest, and all else, kept. */
  ghost predicate ConstantLoaded(c: Core, d: Core, x: char, v: seq<int>)
  {
    var r, r' := Get(c, RegNamed(x)), Get(d, RegNamed(x));
    d == Set(c, RegNamed(x), r') && |r| == |r'| == 16 && |v| <= 16 &&
    (forall k :: 0 <= k < |v| ==> r'[(c.P + k) % 16] == v[k]) &&
    forall i :: 0 <= i < 16 && (i - c.P) % 16 >= |v| ==> r'[i] == r[i]
  }

  lemma Turn(p: int, k: int, j: int)
    requires 0 <= j < k < 16 && 0 <= p < 16
    ensures (p + j) % 16 != (p + k) % 16 && ((p + k) % 16 - p) % 16 == k
  {
  }

  lemma {:induction false} WrapAt(r: seq<int>, p: nat, v: seq<int>, i: nat)
    requires |r| == 16 && |v| <= 16 && p < 16 && i < 16
    ensures var j := (i - p) % 16; Wrap(r, p, v)[i] == if j < |v| then v[j] else r[i]
    decreases |v|
  {
    if v != [] {
      var n := |v| - 1;
      WrapAt(r, p, v[..n], i);
      WrapPlace(p, n, i);
    }
  }

  lemma WrapPlace(p: nat, n: nat, i: nat)
    requires p < 16 && n < 16 && i < 16
    ensures i == (p + n) % 16 <==> (i - p) % 16 == n
  {
  }

  lemma WrapLoads(c: Core, x: char, v: seq<int>)
    requires CoreOk(c) && |v| <= 16 && Below(v, 16)
    ensures ConstantLoaded(c, After(c, LoadReg(RegNamed(x), v)), x, v)
  {
    var r := RegNamed(x);
    hide *;
    LengthsOf(c);
    RegLength(c, r);
    LoadRegAfter(c, r, v);
    WrapMeans(Get(c, r), c.P, v);
    SetGet(c, r, Wrap(Get(c, r), c.P, v));
    LoadedIs(c, After(c, LoadReg(r, v)), x, v);
  }

  lemma SetGet(c: Core, r: Reg, v: seq<int>)
    ensures Get(Set(c, r, v), r) == v
  {
  }

  ghost predicate Wrapped(r: seq<int>, r': seq<int>, p: nat, v: seq<int>)
  {
    |r| == |r'| == 16 && |v| <= 16 && (forall k :: 0 <= k < |v| ==> r'[(p + k) % 16] == v[k]) &&
    forall i :: 0 <= i < 16 && (i - p) % 16 >= |v| ==> r'[i] == r[i]
  }

  lemma WrapMeans(r: seq<int>, p: nat, v: seq<int>)
    requires |r| == 16 && |v| <= 16 && p < 16
    ensures Wrapped(r, Wrap(r, p, v), p, v)
  {
    hide Wrap;
    forall k | 0 <= k < |v| ensures Wrap(r, p, v)[(p + k) % 16] == v[k] {
      WrapAt(r, p, v, (p + k) % 16);
      WrapPlace(p, k, (p + k) % 16);
    }
    forall i | 0 <= i < 16 && (i - p) % 16 >= |v| ensures Wrap(r, p, v)[i] == r[i] {
      WrapAt(r, p, v, i);
    }
  }

  lemma LoadedIs(c: Core, d: Core, x: char, v: seq<int>)
    requires d == Set(c, RegNamed(x), Get(d, RegNamed(x)))
    requires Wrapped(Get(c, RegNamed(x)), Get(d, RegNamed(x)), c.P, v)
    ensures ConstantLoaded(c, d, x, v)
  {
    hide Get, Set, RegNamed;
  }

  lemma LoadRegAfter(c: Core, r: Reg, v: seq<int>)
    requires CoreOk(c) && |v| <= 16 && Below(v, 16)
    ensures |Get(c, r)| == 16
    ensures After(c, LoadReg(r, v)) == Set(c, r, Wrap(Get(c, r), c.P, v))
  {
    hide CoreOk, After, Wrap, Below, SetField, FieldOf, GetStart, GetEnd, Get, Set, WithBit, InNibbles, Low;
    hide Zeros, ShiftLeft, ShiftRight, ShiftRightBit;
    RegLength(c, r);
    MoveUnitIs(c, LoadReg(r, v));
  }

  lemma ConstantDecodes(w: seq<int>)
    requires Nibbles(w)
    ensures w[0] == 3 ==> 0 <= w[1] < 16 && DecodeAt(w) == Inline(LoadReg(RegNamed('C'), w[2..3 + w[1]]), 3 + w[1])
    ensures w[0] == 8 && w[1] == 0 && w[2] == 8 && w[3] == 2 ==>
              0 <= w[4] < 16 && DecodeAt(w) == Inline(LoadReg(RegNamed('A'), w[5..6 + w[4]]), 6 + w[4])
  {
    if w[0] == 8 && w[1] == 0 && w[2] == 8 && w[3] == 2 { InGroup808(w); }
    hide Group0, Group1, Group6, Group8, Imm, EqualGroup, OrderGroup;
    hide AddGroup, SubGroup, CopyGroup, ShiftGroup, Signed;
  }

  /** LC and LA: one to sixteen digits of the program into C or A, from position P upwards. */
  lemma Constants(s: Saturn, w: seq<int>)
    requires At(s, w) && Nibbles(w)
    requires w[0] == 3 || (w[0] == 8 && w[1] == 0 && w[2] == 8 && w[3] == 2)
    ensures 0 <= w[1] < 16 && 0 <= w[4] < 16
    ensures w[0] == 3 ==> Leaves(s, Next(s), 3 + w[1]) && ConstantLoaded(s.core, Next(s), 'C', w[2..3 + w[1]])
    ensures w[0] == 8 ==> Leaves(s, Next(s), 6 + w[4]) && ConstantLoaded(s.core, Next(s), 'A', w[5..6 + w[4]])
  {
    hide *;
    AtOk(s, w);
    AllNibbles(w);
    ConstantDecodes(w);
    var x := if w[0] == 3 then 'C' else 'A';
    var v := if w[0] == 3 then w[2..3 + w[1]] else w[5..6 + w[4]];
    var n := if w[0] == 3 then 3 + w[1] else 6 + w[4];
    BelowRun(w, n - |v|, n);
    Does(s, w, LoadReg(RegNamed(x), v), n);
    StepLeft(s, After(s.core, LoadReg(RegNamed(x), v)), n);
    WrapLoads(s.core, x, v);
  }

  // ------------------------------------------------------------- memory

  predicate Transfers(w: seq<int>)
    requires Nibbles(w)
  {
    w[0] == 1 && (w[1] == 4 || w[1] == 5)
  }

  // The sixteen operands: the register, the pointer, and whether memory is read.
  const CARRIED := "AAAACCCCAAAACCCC"
  const THROUGH := "0101010101010101"
  const READS := "..RR..RR..RR..RR"

  lemma TransferTables(k: nat)
    requires k < 16
    ensures CARRIED[k] == (if k / 4 % 2 == 0 then 'A' else 'C') && THROUGH[k] == (if k % 2 == 0 then '0' else '1')
    ensures READS[k] == 'R' <==> k / 2 % 2 == 1
  {
    Sixteen(k);
  }

  /** The first nibble of the register that takes part, and how many there are. */
  function Extent(w: seq<int>, p: nat): (nat, nat)
    requires Nibbles(w) && Transfers(w) && p < 16
  {
    if w[1] == 5 && w[2] >= 8 then (0, w[3] + 1)
    else
      var f := if w[1] == 5 then w[3] else if w[2] < 8 then 15 else 6;
      (GetStart(p, f), GetEnd(p, f) - GetStart(p, f) + 1)
  }

  ghost function PointerNamed(c: Core, n: char): int { if n == '0' then c.D0 else c.D1 }

  /** The nibbles read from memory, each through the CRC, are in the register at their place; all else is kept. */
  ghost predicate Recalled(c: Core, d: Core, x: char, addr: int, s: nat, n: nat)
  {
    CoreOk(c) && MemOk(c.mem) && s + n <= 16 &&
    var r, r' := Get(c, RegNamed(x)), Get(d, RegNamed(x));
    var (m, v) := RecallRun(c.mem, addr, n);
    d == Set(c, RegNamed(x), r').(mem := m) && |r| == |r'| == 16 && |v| == n && r'[s..s + n] == v &&
    r'[..s] == r[..s] && r'[s + n..] == r[s + n..]
  }

  /** What is stored is the register's nibbles, from the pointer up, after the program counter has moved on. */
  ghost predicate StoredFrom(s: Saturn, x: char, addr: int, i: nat, n: nat, len: nat)
  {
    Ok(s) && CoreOk(s.core) &&
    var r := Get(s.core, RegNamed(x));
    i + n <= |r| && StepOf(s) == (StoreRun(Saturn(s.core, s.flow.(pc := s.flow.pc + len)), addr, r[i..i + n]), false)
  }

  lemma PatchParts(r: seq<int>, s: nat, v: seq<int>)
    requires s + |v| <= |r|
    ensures var q := Patch(r, s, v);
            q[s..s + |v|] == v && q[..s] == r[..s] && q[s + |v|..] == r[s + |v|..] && |q| == |r|
  {
  }

  lemma RecallNAfter(c: Core, q: Reg, k: nat, n: nat)
    requires CoreOk(c) && k < 2 && n <= 16
    ensures |Get(c, q)| == 16 && MemOk(c.mem)
    ensures var (m, v) := RecallRun(c.mem, GetD(c, k), n);
            After(c, RecallN(q, k, n)) == Set(c, q, Low(Get(c, q), v)).(mem := m)
  {
    hide CoreOk, MemOk, After, SetField, FieldOf, RecallRun, Low, Get, Set;
    hide GetD, StatusStep, ArithStep, MoveStep, ScratchStep, PointerStep;
    RegLength(c, q);
    CoreMem(c);
    BusUnitIs(c, RecallN(q, k, n));
  }

  lemma RecallSets(c: Core, d: Core, x: char, addr: int, s: nat, n: nat)
    requires CoreOk(c) && MemOk(c.mem) && |Get(c, RegNamed(x))| == 16 && s + n <= 16
    requires var (m, v) := RecallRun(c.mem, addr, n);
             d == Set(c, RegNamed(x), Patch(Get(c, RegNamed(x)), s, v)).(mem := m)
    ensures Recalled(c, d, x, addr, s, n)
  {
    hide CoreOk, MemOk, RecallRun, Patch;
    PatchParts(Get(c, RegNamed(x)), s, RecallRun(c.mem, addr, n).1);
  }

  lemma RecallMeans(c: Core, x: char, k: nat, f: nat)
    requires CoreOk(c) && k < 2 && f < 19
    ensures c.P < 16
    ensures var s := GetStart(c.P, f);
            Recalled(c, After(c, Recall(RegNamed(x), k, f)), x, GetD(c, k), s, GetEnd(c.P, f) - s + 1)
  {
    hide *;
    LengthsOf(c);
    var r := RegNamed(x);
    RegLength(c, r);
    CoreMem(c);
    AfterRecall(c, r, k, f);
    FieldLength(Get(c, r), c.P, f);
    FieldIs(c, r, f);
    SetFieldIs(c, r, f, RecallRun(c.mem, GetD(c, k), |FieldOf(c, r, f)|).1);
    RecallSets(c, After(c, Recall(r, k, f)), x, GetD(c, k), GetStart(c.P, f), GetEnd(c.P, f) - GetStart(c.P, f) + 1);
  }

  lemma SetFieldIs(c: Core, r: Reg, f: nat, v: seq<int>)
    requires c.P < 16 && f < 19 && |Get(c, r)| == 16 && |v| == |FieldOf(c, r, f)|
    ensures GetStart(c.P, f) + |v| <= 16 && |v| == GetEnd(c.P, f) - GetStart(c.P, f) + 1
    ensures SetField(c, r, f, v) == Set(c, r, Patch(Get(c, r), GetStart(c.P, f), v))
  {
    hide GetStart, GetEnd, Patch;
  }

  lemma LowIsPatch(r: seq<int>, v: seq<int>)
    requires |v| <= |r|
    ensures Low(r, v) == Patch(r, 0, v)
  {
  }

  lemma RecallNMeans(c: Core, x: char, k: nat, n: nat)
    requires CoreOk(c) && k < 2 && n <= 16
    ensures Recalled(c, After(c, RecallN(RegNamed(x), k, n)), x, GetD(c, k), 0, n)
  {
    hide CoreOk, MemOk, After, RecallRun, Patch, Low, Recalled, Get, Set, GetD;
    var r := RegNamed(x);
    RecallNAfter(c, r, k, n);
    LowIsPatch(Get(c, r), RecallRun(c.mem, GetD(c, k), n).1);
    RecallSets(c, After(c, RecallN(r, k, n)), x, GetD(c, k), 0, n);
  }

  lemma TransferGroupIs(k: nat, f: nat, n: nat)
    requires k < 16
    ensures var r := RegNamed(if k / 4 % 2 == 0 then 'A' else 'C');
            TransferGroup(k, f) == (if k / 2 % 2 == 0 then Store(k % 2, r, f) else Simple(Recall(r, k % 2, f))) &&
            TransferNGroup(k, n) == if k / 2 % 2 == 0 then StoreN(k % 2, r, n) else Simple(RecallN(r, k % 2, n))
  {
    Sixteen(k);
  }

  lemma TransferDecodes(w: seq<int>)
    requires Nibbles(w) && Transfers(w)
    ensures (w[1] == 4 || w[1] == 5) && 0 <= w[2] < 16 && 0 <= w[3] < 16
    ensures w[1] == 5 && w[2] >= 8 ==> DecodeAt(w) == Opcode(TransferNGroup(w[2], w[3] + 1), 4)
    ensures w[1] == 5 && w[2] < 8 ==> DecodeAt(w) == Opcode(TransferGroup(w[2], w[3]), 4)
    ensures w[1] == 4 ==> DecodeAt(w) == Opcode(TransferGroup(w[2], if w[2] < 8 then 15 else 6), 3)
  {
    InGroup1(w);
    hide DecodeAt, TransferGroup, TransferNGroup;
  }

  lemma StoreDoes(s: Saturn, w: seq<int>, x: char, k: nat, f: nat, len: nat)
    requires At(s, w) && DecodeAt(w) == Opcode(Store(k, RegNamed(x), f), len) && k < 2 && f < 19
    ensures Ok(s) && CoreOk(s.core) && s.core.P < 16
    ensures var i := GetStart(s.core.P, f);
            StoredFrom(s, x, GetD(s.core, k), i, GetEnd(s.core.P, f) - i + 1, len)
  {
    hide *;
    AtOk(s, w);
    LengthsOf(s.core);
    RegLength(s.core, RegNamed(x));
    FieldIs(s.core, RegNamed(x), f);
    StepIs(s, Opcode(Store(k, RegNamed(x), f), len));
    ExecStoreIs(s, k, RegNamed(x), f, len);
    StoreShape(s, x, GetD(s.core, k), f, len);
  }

  lemma StepIs(s: Saturn, op: Opcode)
    requires CoreOk(s.core) && Fetch(s) == op && (op.i.Store? || op.i.StoreN?)
    ensures InstrOk(op.i) && StepOf(s) == (Exec(s, op), false)
  {
    hide CoreOk, Fetch, Exec;
  }

  lemma StoreShape(s: Saturn, x: char, addr: int, f: nat, len: nat)
    requires Ok(s) && CoreOk(s.core) && f < 19 && s.core.P < 16 && |Get(s.core, RegNamed(x))| == 16
    requires StepOf(s) == (StoreRun(Saturn(s.core, Advance(s.flow, len)), addr, FieldOf(s.core, RegNamed(x), f)), false)
    ensures var i := GetStart(s.core.P, f); StoredFrom(s, x, addr, i, GetEnd(s.core.P, f) - i + 1, len)
  {
    hide CoreOk, StepOf, StoreRun, GetStart, GetEnd;
  }

  lemma StoreNDoes(s: Saturn, w: seq<int>, x: char, k: nat, n: nat, len: nat)
    requires At(s, w) && DecodeAt(w) == Opcode(StoreN(k, RegNamed(x), n), len) && k < 2 && n <= 16
    ensures Ok(s) && CoreOk(s.core) && StoredFrom(s, x, GetD(s.core, k), 0, n, len)
  {
    hide *;
    AtOk(s, w);
    RegLength(s.core, RegNamed(x));
    StepIs(s, Opcode(StoreN(k, RegNamed(x), n), len));
    ExecStoreNIs(s, k, RegNamed(x), n, len);
    StoreNShape(s, x, GetD(s.core, k), n, len);
  }

  lemma ExecStoreNIs(s: Saturn, k: nat, r: Reg, n: nat, len: nat)
    requires CoreOk(s.core) && k < 2 && n <= 16
    ensures |Get(s.core, r)| == 16
    ensures Exec(s, Opcode(StoreN(k, r, n), len)) ==
              StoreRun(Saturn(s.core, Advance(s.flow, len)), GetD(s.core, k), Get(s.core, r)[..n])
  {
    hide CoreOk, StoreRun, GetD, Get, Holds;
    RegLength(s.core, r);
  }

  lemma StoreNShape(s: Saturn, x: char, addr: int, n: nat, len: nat)
    requires Ok(s) && CoreOk(s.core) && n <= 16 && |Get(s.core, RegNamed(x))| == 16
    requires StepOf(s) == (StoreRun(Saturn(s.core, Advance(s.flow, len)), addr, Get(s.core, RegNamed(x))[..n]), false)
    ensures StoredFrom(s, x, addr, 0, n, len)
  {
    hide CoreOk, StepOf, StoreRun;
    assert Get(s.core, RegNamed(x))[..n] == Get(s.core, RegNamed(x))[0..0 + n];
  }

  /**
   DATn=A, A=DATn and the same of C, over a field or over the low nibbles: what lies from the
   pointer up in memory and the nibbles of the register.
   */
  lemma MemoryTransfers(s: Saturn, w: seq<int>)
    requires At(s, w) && Nibbles(w) && Transfers(w)
    ensures 0 <= w[2] < 16 && s.core.P < 16
    ensures var (i, n) := Extent(w, s.core.P);
            var x, a, len := CARRIED[w[2]], PointerNamed(s.core, THROUGH[w[2]]), if w[1] == 4 then 3 else 4;
            if READS[w[2]] == 'R' then Leaves(s, Next(s), len) && Recalled(s.core, Next(s), x, a, i, n)
            else StoredFrom(s, x, a, i, n, len)
  {
    hide *;
    AtOk(s, w);
    AllNibbles(w);
    LengthsOf(s.core);
    TransferDecodes(w);
    TransferTables(w[2]);
    PointerIs(s.core, w[2]);
    var k, x := w[2] % 2, if w[2] / 4 % 2 == 0 then 'A' else 'C';
    if w[1] == 5 && w[2] >= 8 {
      TransferGroupIs(w[2], 0, w[3] + 1);
      ExtentIs(w, s.core.P, 0);
      if w[2] / 2 % 2 == 0 {
        StoreNDoes(s, w, x, k, w[3] + 1, 4);
      } else {
        InlineIs(RecallN(RegNamed(x), k, w[3] + 1), 4);
        Does(s, w, RecallN(RegNamed(x), k, w[3] + 1), 4);
        StepLeft(s, After(s.core, RecallN(RegNamed(x), k, w[3] + 1)), 4);
        RecallNMeans(s.core, x, k, w[3] + 1);
      }
    } else {
      var f, len := if w[1] == 5 then w[3] else if w[2] < 8 then 15 else 6, if w[1] == 5 then 4 else 3;
      TransferGroupIs(w[2], f, 0);
      ExtentIs(w, s.core.P, f);
      if w[2] / 2 % 2 == 0 {
        StoreDoes(s, w, x, k, f, len);
      } else {
        InlineIs(Recall(RegNamed(x), k, f), len);
        Does(s, w, Recall(RegNamed(x), k, f), len);
        StepLeft(s, After(s.core, Recall(RegNamed(x), k, f)), len);
        RecallMeans(s.core, x, k, f);
      }
    }
  }

  lemma InlineIs(d: Data, len: nat)
    ensures Inline(d, len) == Opcode(Simple(d), len)
  {
  }

  lemma PointerIs(c: Core, k: nat)
    ensures PointerNamed(c, if k % 2 == 0 then '0' else '1') == GetD(c, k % 2)
  {
  }

  lemma ExtentIs(w: seq<int>, p: nat, f: nat)
    requires Nibbles(w) && Transfers(w) && p < 16
    ensures w[1] == 5 && w[2] >= 8 ==> Extent(w, p) == (0, w[3] + 1)
    ensures !(w[1] == 5 && w[2] >= 8) && f == (if w[1] == 5 then w[3] else if w[2] < 8 then 15 else 6) ==>
              f < 19 && Extent(w, p) == (GetStart(p, f), GetEnd(p, f) - GetStart(p, f) + 1)
  {
    hide GetStart, GetEnd;
  }

  // ------------------------------------------------------------- shifts and constants added

  predicate Rotates(w: seq<int>)
    requires Nibbles(w)
  {
    w[0] == 8 && w[1] == 1 && w[2] < 8
  }

  /** A whole register turned by one nibble; to the right, a non-zero nibble that comes round sets the sticky bit. */
  ghost predicate Turned(c: Core, d: Core, x: char, left: bool)
  {
    var r, r' := Get(c, RegNamed(x)), Get(d, RegNamed(x));
    |r| == |r'| == 16 &&
    if left then d == Set(c, RegNamed(x), r') && r' == [r[15]] + r[..15]
    else d == Set(c, RegNamed(x), r').(SB := if r[0] != 0 then 1 else c.SB) && r' == r[1..] + [r[0]]
  }

  lemma WholeField(c: Core, r: Reg, v: seq<int>)
    requires CoreOk(c) && |v| == 16
    ensures |Get(c, r)| == 16 && FieldOf(c, r, 7) == Get(c, r) && SetField(c, r, 7, v) == Set(c, r, v)
  {
    RegLength(c, r);
    hide CoreOk;
  }

  lemma TurnsAre(r: seq<int>)
    requires |r| == 16
    ensures ShiftLeft(r, r[15]) == [r[15]] + r[..15] && ShiftRight(r, r[0]) == r[1..] + [r[0]]
  {
  }

  lemma StickySet(c: Core, r: Reg, v: seq<int>, b: int)
    ensures Get(Set(c, r, v).(SB := b), r) == v
  {
  }

  lemma TurnMeans(c: Core, x: char)
    requires CoreOk(c)
    ensures Turned(c, After(c, Shl(RegNamed(x), 7, true)), x, true)
    ensures Turned(c, After(c, Shr(RegNamed(x), 7, true)), x, false)
  {
    var r := RegNamed(x);
    hide CoreOk, After, ShiftLeft, ShiftRight, FieldOf, SetField, Get, Set, GetStart, GetEnd;
    RegLength(c, r);
    WholeField(c, r, Get(c, r));
    AfterRotateLeft(c, r, 7);
    AfterRotateRight(c, r, 7);
    TurnsAre(Get(c, r));
    WholeField(c, r, ShiftLeft(Get(c, r), Get(c, r)[15]));
    WholeField(c, r, ShiftRight(Get(c, r), Get(c, r)[0]));
    SetGet(c, r, ShiftLeft(Get(c, r), Get(c, r)[15]));
    StickySet(c, r, ShiftRight(Get(c, r), Get(c, r)[0]), if Get(c, r)[0] != 0 then 1 else c.SB);
  }

  lemma RotateDecodes(w: seq<int>)
    requires Nibbles(w) && Rotates(w)
    ensures 0 <= w[2] < 8
    ensures var r := RegNamed(Letter(w[2]));
            DecodeAt(w) == Inline(if w[2] < 4 then Shl(r, 7, true) else Shr(r, 7, true), 3)
  {
    InGroup81(w);
    hide DecodeAt;
    RegLetter(w[2]);
  }

  lemma RegLetter(k: nat)
    requires k < 16
    ensures Named(Letter(k)) && Instructions.RegOf(k) == RegNamed(Letter(k))
  {
    Sixteen(k);
  }

  /** ASLC to DSLC and ASRC to DSRC. */
  lemma CircularShifts(s: Saturn, w: seq<int>)
    requires At(s, w) && Nibbles(w) && Rotates(w)
    ensures 0 <= w[2] < 8 && Leaves(s, Next(s), 3) && Turned(s.core, Next(s), Letter(w[2]), w[2] < 4)
  {
    hide *;
    AtOk(s, w);
    AllNibbles(w);
    RotateDecodes(w);
    var r := RegNamed(Letter(w[2]));
    var d := if w[2] < 4 then Shl(r, 7, true) else Shr(r, 7, true);
    Does(s, w, d, 3);
    StepLeft(s, After(s.core, d), 3);
    TurnMeans(s.core, Letter(w[2]));
  }

  /** One-bit shifts: the number is halved and a lost bit sets the sticky bit. */
  ghost predicate Halved(c: Core, d: Core, x: char, f: nat)
  {
    HexNum(d, x, f) == HexNum(c, x, f) / 2 && Only(c, d, x, f) && d.CARRY == c.CARRY &&
    d.SB == if HexNum(c, x, f) % 2 != 0 then 1 else c.SB
  }

  lemma AfterHalf(c: Core, r: Reg, f: nat)
    requires CoreOk(c) && f < 19
    ensures var a := FieldOf(c, r, f);
            var (v, out) := ShiftRightBit(a, 0);
            var d := After(c, ShrBit(r, f));
            CoreOk(d) && d == SetField(c, r, f, v).(SB := if out != 0 then 1 else c.SB)
  {
    AfterIs(c, ShrBit(r, f));
    hide CoreOk, After, ShiftRightBit, SetField, FieldOf, GetStart, GetEnd;
  }

  lemma HalfOfNumber(v: int, q: int, r: int)
    requires 2 * q + r == v && 0 <= r <= 1
    ensures q == v / 2 && r == v % 2
  {
  }

  lemma {:induction false} LostBit(a: seq<int>, sb: int)
    requires Below(a, 16) && 0 <= sb <= 1
    ensures 0 <= ShiftRightBit(a, sb).1 <= 1
  {
    if a != [] { LostBit(a[..|a| - 1], a[|a| - 1] % 2); }
  }

  lemma HalfMeans(c: Core, x: char, f: nat)
    requires Sound(c, f) && Named(x)
    ensures Halved(c, After(c, ShrBit(RegNamed(x), f)), x, f)
  {
    var d, a := After(c, ShrBit(RegNamed(x), f)), Part(c, x, f);
    hide CoreOk, Below, Value, Pow, ShiftRightBit, SetField, FieldOf, Part, Only, After;
    hide Digital4, Get, GetStart, GetEnd;
    Parts(c, x, f);
    AfterHalf(c, RegNamed(x), f);
    var (v, out) := ShiftRightBit(a, 0);
    ShiftRightBitExact(a, 0);
    LostBit(a, 0);
    HalfOfNumber(Value(a, 16), Value(v, 16), out);
    SetSticky(c, RegNamed(x), f, v);
    SetMeans(c, d, x, f, v);
  }

  predicate Halves(w: seq<int>)
    requires Nibbles(w)
  {
    w[0] == 8 && w[1] == 1 && (w[2] == 9 || w[2] >= 12)
  }

  lemma HalfDecodes(w: seq<int>)
    requires Nibbles(w) && Halves(w)
    ensures 0 <= w[2] < 16 && 0 <= w[3] < 16 && 0 <= w[4] < 16
    ensures DecodeAt(w) == if w[2] == 9 then Inline(ShrBit(RegNamed(Letter(w[4])), w[3]), 5)
                           else Inline(ShrBit(RegNamed(Letter(w[2])), 7), 3)
    ensures Named(Letter(w[2])) && Named(Letter(w[4]))
  {
    InGroup81(w);
    hide DecodeAt, ScratchGroup;
    RegLetter(w[2]);
    RegLetter(w[4]);
  }

  /** ASRB to DSRB, of the whole register or of a field. */
  lemma BitShifts(s: Saturn, w: seq<int>)
    requires At(s, w) && Nibbles(w) && Halves(w)
    ensures 0 <= w[2] < 16 && 0 <= w[3] && 0 <= w[4] < 16
    ensures w[2] == 9 ==> Leaves(s, Next(s), 5) && Halved(s.core, Next(s), Letter(w[4]), w[3])
    ensures w[2] != 9 ==> Leaves(s, Next(s), 3) && Halved(s.core, Next(s), Letter(w[2]), 7)
  {
    hide *;
    AtOk(s, w);
    AllNibbles(w);
    HalfDecodes(w);
    var x, f, n := if w[2] == 9 then Letter(w[4]) else Letter(w[2]), if w[2] == 9 then w[3] else 7,
                   if w[2] == 9 then 5 else 3;
    Does(s, w, ShrBit(RegNamed(x), f), n);
    StepLeft(s, After(s.core, ShrBit(RegNamed(x), f)), n);
    SoundHere(s, f);
    HalfMeans(s.core, x, f);
  }

  /** A constant added to the number in a field, or taken away, in base 16 whatever the mode. */
  ghost predicate Shifted(c: Core, d: Core, x: char, f: nat, con: int)
  {
    var w := Pow(16, Places(c, f));
    HexNum(d, x, f) == HexNum(c, x, f) + con - (if con >= 0 then d.CARRY else -d.CARRY) * w &&
    0 <= HexNum(d, x, f) < w && 0 <= d.CARRY <= 1 && Only(c, d, x, f) && d.SB == c.SB
  }

  lemma AfterCon(c: Core, r: Reg, f: nat, con: nat)
    requires CoreOk(c) && f < 19 && 1 <= con <= 16
    ensures var a := FieldOf(c, r, f);
            var d, e := After(c, AddCon(r, f, con)), After(c, SubCon(r, f, con));
            var (u, up) := RippleUp(a, con, 16);
            var (v, down) := RippleDown(a, con, 16);
            CoreOk(d) && d == SetField(c, r, f, u).(CARRY := Flag(up)) &&
            CoreOk(e) && e == SetField(c, r, f, v).(CARRY := Flag(down))
  {
    hide CoreOk, After, RippleUp, RippleDown, SetField, FieldOf, GetStart, GetEnd, AddDigits, SubDigits, NegDigits;
    hide NotDigits, MapNibs, Low;
    RegLength(c, r);
    LengthsOf(c);
    AfterIs(c, AddCon(r, f, con));
    AfterIs(c, SubCon(r, f, con));
  }

  lemma AddConMeans(c: Core, x: char, f: nat, con: nat)
    requires Sound(c, f) && Named(x) && 1 <= con <= 16
    ensures Shifted(c, After(c, AddCon(RegNamed(x), f, con)), x, f, con)
  {
    var d, a := After(c, AddCon(RegNamed(x), f, con)), Part(c, x, f);
    hide CoreOk, Below, Value, Pow, RippleUp, RippleDown, Flag, SetField, FieldOf, Part, Only, After;
    hide Digital4, Get, GetStart, GetEnd;
    Parts(c, x, f);
    AfterCon(c, RegNamed(x), f, con);
    RippleUpExact(a, con, 16);
    RippleUpRange(a, con, 16);
    var (v, out) := RippleUp(a, con, 16);
    FlagIs(out);
    ValueBound(v, 16);
    SetSticky(c, RegNamed(x), f, v);
    SetMeans(c, d, x, f, v);
  }

  lemma SubConMeans(c: Core, x: char, f: nat, con: nat)
    requires Sound(c, f) && Named(x) && 1 <= con <= 16
    ensures Shifted(c, After(c, SubCon(RegNamed(x), f, con)), x, f, 0 - con)
  {
    var d, a := After(c, SubCon(RegNamed(x), f, con)), Part(c, x, f);
    hide CoreOk, Below, Value, Pow, RippleUp, RippleDown, Flag, SetField, FieldOf, Part, Only, After;
    hide Digital4, Get, GetStart, GetEnd;
    Parts(c, x, f);
    AfterCon(c, RegNamed(x), f, con);
    RippleDownExact(a, con, 16);
    RippleDownRange(a, con, 16);
    var (v, out) := RippleDown(a, con, 16);
    FlagIs(out);
    ValueBound(v, 16);
    SetSticky(c, RegNamed(x), f, v);
    SetMeans(c, d, x, f, v);
  }

  lemma ConDecodes(w: seq<int>)
    requires Nibbles(w) && w[0] == 8 && w[1] == 1 && w[2] == 8
    ensures 0 <= w[3] < 16 && 0 <= w[4] < 16 && 0 <= w[5] < 16 && Named(Letter(w[4]))
    ensures var r := RegNamed(Letter(w[4]));
            DecodeAt(w) == Inline(if w[4] < 8 then AddCon(r, w[3], w[5] + 1) else SubCon(r, w[3], w[5] + 1), 6)
  {
    InGroup81(w);
    hide DecodeAt, ScratchGroup;
    RegLetter(w[4]);
  }

  /** A=A+CON and A=A-CON of any register and field: one to sixteen. */
  lemma ConstantsAdded(s: Saturn, w: seq<int>)
    requires At(s, w) && Nibbles(w) && w[0] == 8 && w[1] == 1 && w[2] == 8
    ensures 0 <= w[3] && 0 <= w[4] < 16 && Leaves(s, Next(s), 6)
    ensures Shifted(s.core, Next(s), Letter(w[4]), w[3], if w[4] < 8 then w[5] + 1 else -(w[5] + 1))
  {
    hide *;
    AtOk(s, w);
    AllNibbles(w);
    ConDecodes(w);
    var x, con := Letter(w[4]), w[5] + 1;
    var d := if w[4] < 8 then AddCon(RegNamed(x), w[3], con) else SubCon(RegNamed(x), w[3], con);
    Does(s, w, d, 6);
    StepLeft(s, After(s.core, d), 6);
    SoundHere(s, w[3]);
    AddConMeans(s.core, x, w[3], con);
    SubConMeans(s.core, x, w[3], con);
  }

  lemma AfterPlusP(c: Core)
    requires CoreOk(c)
    ensures var (v, out) := RippleUp(c.C[..5], c.P + 1, 16);
            var d := After(c, CPlusP);
            CoreOk(d) && |c.C| == 16 && |v| == 5 && d == c.(C := Patch(c.C, 0, v), CARRY := Flag(out))
  {
    LengthsOf(c);
    AfterIs(c, CPlusP);
    LowIsPatch(c.C, RippleUp(c.C[..5], c.P + 1, 16).0);
    hide CoreOk, After, RippleUp, Low, Patch, SetField, FieldOf, GetStart, GetEnd;
  }

  lemma AddressField(c: Core, v: seq<int>)
    requires CoreOk(c) && |v| == 5
    ensures Sound(c, 15) && |Get(c, RegNamed('C'))| == 16 && FieldOf(c, RegNamed('C'), 15) == c.C[..5]
    ensures SetField(c, RegNamed('C'), 15, v) == c.(C := Patch(c.C, 0, v))
  {
    LengthsOf(c);
    hide CoreOk, Patch;
  }

  /** C+P+1: one more than P added to the address field of C, in base 16. */
  lemma PlusPMeans(c: Core)
    requires CoreOk(c)
    ensures Shifted(c, After(c, CPlusP), 'C', 15, c.P + 1)
  {
    var d := After(c, CPlusP);
    hide CoreOk, Below, Value, Pow, RippleUp, Flag, SetField, FieldOf, Part, Only, After, Patch;
    hide Digital4, Get, GetStart, GetEnd;
    LengthsOf(c);
    AfterPlusP(c);
    var (v, out) := RippleUp(c.C[..5], c.P + 1, 16);
    AddressField(c, v);
    Parts(c, 'C', 15);
    RippleUpExact(c.C[..5], c.P + 1, 16);
    RippleUpRange(c.C[..5], c.P + 1, 16);
    FlagIs(out);
    ValueBound(v, 16);
    SetSticky(c, RegNamed('C'), 15, v);
    SetMeans(c, d, 'C', 15, v);
  }

  lemma PlusP(s: Saturn, w: seq<int>)
    requires At(s, w) && Nibbles(w) && w[0] == 8 && w[1] == 0 && w[2] == 9
    ensures Leaves(s, Next(s), 3) && Shifted(s.core, Next(s), 'C', 15, s.core.P + 1)
  {
    hide *;
    AtOk(s, w);
    NibbleDecodes(w);
    Does(s, w, CPlusP, 3);
    StepLeft(s, After(s.core, CPlusP), 3);
    PlusPMeans(s.core);
  }
}
