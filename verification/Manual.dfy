/**
 The instructions that are not arithmetic, said nibble by nibble: for each pattern at the program
 counter, what one step leaves in the registers, the pointers, the status word and the map.
 */
module Manual {
  import opened Digits
  import opened Fields
  import opened DaisyChain
  import opened Memory
  import opened ReturnStack
  import opened Interrupts
  import opened Instructions
  import opened Machine
  import opened Step
  import opened Laws
  import opened Transfers
  import opened Listing

  /** The machine n nibbles on, with these registers and this memory. */
  ghost predicate Leaves(s: Saturn, c: Core, n: int)
  {
    Ok(s) && StepOf(s) == (Saturn(c, s.flow.(pc := s.flow.pc + n)), false)
  }

  lemma Does(s: Saturn, w: seq<int>, d: Data, len: nat)
    requires At(s, w) && DecodeAt(w) == Inline(d, len)
    ensures Ok(s) && CoreOk(s.core) && CoreOk(After(s.core, d)) && Leaves(s, After(s.core, d), len)
  {
    hide *;
    AtOk(s, w);
    Simply(s, w, d, len);
    LeavesIs(s, After(s.core, d), len);
  }

  /** The registers and memory after one step. */
  ghost function Next(s: Saturn): Core { if Ok(s) then StepOf(s).0.core else s.core }

  lemma LeavesIs(s: Saturn, c: Core, n: int)
    requires Ok(s) && CoreOk(s.core) && StepOf(s) == (Saturn(c, s.flow.(pc := s.flow.pc + n)), false)
    ensures Leaves(s, c, n)
  {
    hide CoreOk, StepOf;
  }

  lemma AllNibbles(w: seq<int>)
    requires Nibbles(w)
    ensures |w| == 21 && forall i :: 0 <= i < 21 ==> 0 <= w[i] < 16
  {
  }

  // ------------------------------------------------------------- which switch decides

  lemma InGroup0(w: seq<int>)
    requires Nibbles(w) && w[0] == 0
    ensures DecodeAt(w) == Group0(w)
  {
    hide Group0;
  }

  lemma InGroup1(w: seq<int>)
    requires Nibbles(w) && w[0] == 1
    ensures DecodeAt(w) == Group1(w)
  {
    hide Group1;
  }

  lemma InGroup8(w: seq<int>)
    requires Nibbles(w) && w[0] == 8
    ensures DecodeAt(w) == if w[1] == 0 then Group80(w) else if w[1] == 1 then Group81(w) else Group8(w)
  {
    hide Group80, Group81, Imm, Signed, EqualGroup, OrderGroup;
  }

  lemma InGroup808(w: seq<int>)
    requires Nibbles(w) && w[0] == 8 && w[1] == 0 && w[2] == 8
    ensures DecodeAt(w) == Group808(w)
  {
    InGroup8(w);
    hide DecodeAt, Group808;
  }

  // ------------------------------------------------------------- mode, P and status

  lemma StatusUnitIs(c: Core, d: Data)
    requires CoreOk(c) && DataOk(d) && UnitOf(d) == StatusUnit
    ensures After(c, d) == StatusStep(c, d)
  {
    AfterIs(c, d);
    hide CoreOk, DataOk, After, StatusStep;
  }

  lemma ModeDecodes(w: seq<int>)
    requires Nibbles(w)
    ensures w[0] == 0 && w[1] == 4 ==> DecodeAt(w) == Inline(SetMode(16), 2)
    ensures w[0] == 0 && w[1] == 5 ==> DecodeAt(w) == Inline(SetMode(10), 2)
    ensures w[0] == 0 && w[1] == 12 ==> DecodeAt(w) == Inline(StepP(true), 2)
    ensures w[0] == 0 && w[1] == 13 ==> DecodeAt(w) == Inline(StepP(false), 2)
    ensures w[0] == 2 ==> DecodeAt(w) == Inline(SetP(w[1]), 2) && 0 <= w[1] < 16
  {
    if w[0] == 0 { InGroup0(w); hide DecodeAt; }
  }

  lemma ModeAfter(c: Core, d: Data)
    requires CoreOk(c)
    ensures After(c, SetMode(16)) == c.(hexmode := 16) && After(c, SetMode(10)) == c.(hexmode := 10)
    ensures After(c, StepP(true)) == c.(P := (c.P + 1) % 16, CARRY := if c.P == 15 then 1 else 0)
    ensures After(c, StepP(false)) == c.(P := (c.P + 15) % 16, CARRY := if c.P == 0 then 1 else 0)
    ensures d.SetP? && d.n < 16 ==> After(c, d) == c.(P := d.n)
  {
    assert c.P < 16;
    hide CoreOk;
    StatusUnitIs(c, SetMode(16));
    StatusUnitIs(c, SetMode(10));
    StatusUnitIs(c, StepP(true));
    StatusUnitIs(c, StepP(false));
    if d.SetP? && d.n < 16 { StatusUnitIs(c, d); }
    hide After;
  }

  /** SETHEX, SETDEC, P=n, P=P+1 and P=P-1: P counts modulo 16 and carries exactly when it wraps. */
  lemma ModesAndP(s: Saturn, w: seq<int>)
    requires At(s, w)
    ensures w[0] == 0 && w[1] == 4 ==> Leaves(s, s.core.(hexmode := 16), 2)
    ensures w[0] == 0 && w[1] == 5 ==> Leaves(s, s.core.(hexmode := 10), 2)
    ensures w[0] == 0 && w[1] == 12 ==>
              Leaves(s, s.core.(P := (s.core.P + 1) % 16, CARRY := if s.core.P == 15 then 1 else 0), 2)
    ensures w[0] == 0 && w[1] == 13 ==>
              Leaves(s, s.core.(P := (s.core.P + 15) % 16, CARRY := if s.core.P == 0 then 1 else 0), 2)
    ensures w[0] == 2 ==> 0 <= w[1] && Leaves(s, s.core.(P := w[1]), 2)
  {
    AtNibbles(s, w);
    hide *;
    SetsMode(s, w);
    StepsP(s, w);
  }

  lemma SetsMode(s: Saturn, w: seq<int>)
    requires At(s, w)
    ensures Nibbles(w)
    ensures w[0] == 0 && w[1] == 4 ==> Leaves(s, s.core.(hexmode := 16), 2)
    ensures w[0] == 0 && w[1] == 5 ==> Leaves(s, s.core.(hexmode := 10), 2)
    ensures w[0] == 2 ==> 0 <= w[1] && Leaves(s, s.core.(P := w[1]), 2)
  {
    AtNibbles(s, w);
    hide *;
    AtOk(s, w);
    AllNibbles(w);
    ModeDecodes(w);
    if w[0] == 0 && w[1] == 4 { Does(s, w, SetMode(16), 2); ModeAfter(s.core, SetMode(16)); }
    if w[0] == 0 && w[1] == 5 { Does(s, w, SetMode(10), 2); ModeAfter(s.core, SetMode(10)); }
    if w[0] == 2 { Does(s, w, SetP(w[1]), 2); ModeAfter(s.core, SetP(w[1])); }
  }

  lemma StepsP(s: Saturn, w: seq<int>)
    requires At(s, w)
    ensures Nibbles(w)
    ensures w[0] == 0 && w[1] == 12 ==>
              Leaves(s, s.core.(P := (s.core.P + 1) % 16, CARRY := if s.core.P == 15 then 1 else 0), 2)
    ensures w[0] == 0 && w[1] == 13 ==>
              Leaves(s, s.core.(P := (s.core.P + 15) % 16, CARRY := if s.core.P == 0 then 1 else 0), 2)
  {
    AtNibbles(s, w);
    hide *;
    AtOk(s, w);
    AllNibbles(w);
    ModeDecodes(w);
    if w[0] == 0 && w[1] == 12 { Does(s, w, StepP(true), 2); ModeAfter(s.core, StepP(true)); }
    if w[0] == 0 && w[1] == 13 { Does(s, w, StepP(false), 2); ModeAfter(s.core, StepP(false)); }
  }

  lemma StatusDecodes(w: seq<int>)
    requires Nibbles(w) && w[0] == 0 && 8 <= w[1] <= 11
    ensures DecodeAt(w) == Inline(if w[1] == 8 then ClearSt else if w[1] == 9 then StToC
                                  else if w[1] == 10 then CToSt else SwapSt, 2)
  {
    InGroup0(w);
    hide DecodeAt;
  }

  /** Bit i of the low twelve of a register. */
  function StatusBit(r: seq<int>, i: nat): int
  {
    if i / 4 < |r| then Bit(r[i / 4], i % 4) else 0
  }

  /** The status word and C after a transfer between them, bit by bit. */
  ghost predicate StatusMoved(c: Core, d: Core, clear: bool, toC: bool, toSt: bool)
  {
    |c.ST| == |d.ST| == 16 && |c.C| == |d.C| == 16 && d.(ST := c.ST, C := c.C) == c &&
    (forall i :: 12 <= i < 16 ==> d.ST[i] == c.ST[i]) && (forall i :: 3 <= i < 16 ==> d.C[i] == c.C[i]) &&
    forall i :: 0 <= i < 12 ==>
      d.ST[i] == (if clear then 0 else if toSt then StatusBit(c.C, i) else c.ST[i]) &&
      StatusBit(d.C, i) == if toC then c.ST[i] else StatusBit(c.C, i)
  }

  lemma ClearMoves(c: Core)
    requires CoreOk(c)
    ensures StatusMoved(c, StatusStep(c, ClearSt), true, false, false)
  {
    hide Bit, MemOk;
  }

  lemma BitsIn(c: Core, i: nat)
    requires CoreOk(c) && i < 12
    ensures |c.ST| == |c.C| == 16
    ensures StatusBit(Low(c.C, StatusNibbles(c.ST)), i) == c.ST[i] && StatusBits(c.C)[i] == StatusBit(c.C, i)
  {
    assert |c.ST| == |c.C| == 16 && Below(c.ST, 2);
    hide CoreOk, Bit, StatusNibbles;
    BitOfStatus(c.C, c.ST, i);
  }

  lemma LengthsOf(c: Core)
    requires CoreOk(c)
    ensures |c.ST| == |c.C| == |c.A| == |c.B| == |c.D| == 16 && |c.OUT| == 3 && |c.rows| == 9 && |c.R| == 5
    ensures c.P < 16 && 0 <= c.D0 < 0x100000 && 0 <= c.D1 < 0x100000 && forall k :: 0 <= k < 5 ==> |c.R[k]| == 16
    ensures Below(c.A, 16) && Below(c.C, 16) && Below(c.ST, 2) && Below(c.OUT, 16)
    ensures 0 <= c.CARRY <= 1
  {
    hide MemOk;
  }

  lemma BitMoves(c: Core, d: Data)
    requires CoreOk(c) && (d.StToC? || d.CToSt? || d.SwapSt?)
    ensures StatusMoved(c, StatusStep(c, d), false, !d.CToSt?, !d.StToC?)
  {
    hide CoreOk, Bit, StatusNibbles, StatusBits, StatusBit, Below, Zeros;
    LengthsOf(c);
    var e := StatusStep(c, d);
    forall i | 0 <= i < 12
      ensures e.ST[i] == (if !d.StToC? then StatusBit(c.C, i) else c.ST[i])
      ensures StatusBit(e.C, i) == if !d.CToSt? then c.ST[i] else StatusBit(c.C, i)
    {
      BitsIn(c, i);
    }
  }

  /** CLRST, C=ST, ST=C and CSTEX, bit by bit: the low twelve status bits are three nibbles of C. */
  lemma StatusWord(s: Saturn, w: seq<int>)
    requires At(s, w) && w[0] == 0 && 8 <= w[1] <= 11
    ensures Leaves(s, Next(s), 2)
    ensures StatusMoved(s.core, Next(s), w[1] == 8, w[1] == 9 || w[1] == 11, w[1] == 10 || w[1] == 11)
  {
    AtNibbles(s, w);
    hide *;
    AtOk(s, w);
    StatusDecodes(w);
    var d := if w[1] == 8 then ClearSt else if w[1] == 9 then StToC else if w[1] == 10 then CToSt else SwapSt;
    Does(s, w, d, 2);
    StepLeft(s, After(s.core, d), 2);
    StatusUnits(s.core, d);
    if w[1] == 8 { ClearMoves(s.core); } else { BitMoves(s.core, d); }
  }

  lemma StepLeft(s: Saturn, c: Core, n: int)
    requires Leaves(s, c, n)
    ensures Next(s) == c
  {
    hide CoreOk, StepOf;
  }

  lemma StatusUnits(c: Core, d: Data)
    requires CoreOk(c) && MovesStatus(d)
    ensures After(c, d) == StatusStep(c, d)
  {
    hide CoreOk, After, StatusStep;
    StatusUnitIs(c, d);
  }

  // ------------------------------------------------------------- single bits and nibbles

  /** Register x with one bit written and every other bit of it, and all else, kept. */
  ghost predicate BitWritten(c: Core, d: Core, x: char, n: nat, b: int)
  {
    var r, r' := Get(c, RegNamed(x)), Get(d, RegNamed(x));
    d == Set(c, RegNamed(x), r') && |r| == |r'| == 16 &&
    forall i :: 0 <= i < 16 ==> StatusBit(r', i) == if i == n then b else StatusBit(r, i)
  }

  lemma OneBit(c: Core, d: Data, x: char)
    requires CoreOk(c) && d.SetBit? && d.n < 16 && 0 <= d.bit <= 1 && d.dst == RegNamed(x)
    ensures BitWritten(c, After(c, d), x, d.n, d.bit)
  {
    var r := Get(c, d.dst);
    AfterSetBit(c, d.dst, d.n, d.bit);
    SetBitIs(c, d);
    Laws.RegOf(c, d.dst);
    hide CoreOk, After, Bit, WithBit, Below, WithRegBit;
    forall i | 0 <= i < 16
      ensures StatusBit(Get(After(c, d), d.dst), i) == if i == d.n then d.bit else StatusBit(r, i)
    {
      RegBit(r, d.n, d.bit, i);
    }
  }

  lemma SetBitIs(c: Core, d: Data)
    requires CoreOk(c) && d.SetBit? && d.n < 16 && 0 <= d.bit <= 1
    ensures After(c, d) == Set(c, d.dst, Get(After(c, d), d.dst))
  {
    assert |Get(c, d.dst)| == 16;
    hide CoreOk, After, WithBit;
    AfterIs(c, d);
  }

  predicate WritesBit(w: seq<int>)
    requires Nibbles(w)
  {
    w[0] == 8 && w[1] == 0 && w[2] == 8 && (4 <= w[3] <= 5 || 8 <= w[3] <= 9)
  }

  lemma BitDecodes(w: seq<int>)
    requires Nibbles(w) && WritesBit(w)
    ensures 0 <= w[4] < 16
    ensures DecodeAt(w) == Inline(SetBit(RegNamed(if w[3] < 8 then 'A' else 'C'), w[4], w[3] % 2), 5)
  {
    InGroup808(w);
    hide DecodeAt;
  }

  /** ABIT=0, ABIT=1, CBIT=0 and CBIT=1. */
  lemma BitWrites(s: Saturn, w: seq<int>)
    requires At(s, w) && Nibbles(w) && WritesBit(w)
    ensures 0 <= w[4] && Leaves(s, Next(s), 5)
    ensures BitWritten(s.core, Next(s), if w[3] < 8 then 'A' else 'C', w[4], w[3] % 2)
  {
    hide *;
    AtOk(s, w);
    AllNibbles(w);
    BitDecodes(w);
    var x := if w[3] < 8 then 'A' else 'C';
    var d := SetBit(RegNamed(x), w[4], w[3] % 2);
    Does(s, w, d, 5);
    StepLeft(s, After(s.core, d), 5);
    OneBit(s.core, d, x);
  }

  lemma FlagDecodes(w: seq<int>)
    requires Nibbles(w) && w[0] == 8
    ensures 0 <= w[2] < 16
    ensures w[1] == 2 ==> DecodeAt(w) == Inline(ClearHst(w[2]), 3)
    ensures w[1] == 4 ==> DecodeAt(w) == Inline(SetSt(w[2], 0), 3)
    ensures w[1] == 5 ==> DecodeAt(w) == Inline(SetSt(w[2], 1), 3)
  {
    InGroup8(w);
    hide DecodeAt, Group80, Group81, Imm, Signed, EqualGroup, OrderGroup;
  }

  lemma FlagAfter(c: Core, n: nat, b: int)
    requires CoreOk(c) && n < 16 && 0 <= b <= 1
    ensures |c.ST| == 16 && After(c, SetSt(n, b)) == c.(ST := c.ST[n := b])
    ensures After(c, ClearHst(n)) ==
              c.(XM := if n % 2 == 1 then 0 else c.XM, SB := if n / 2 % 2 == 1 then 0 else c.SB,
                 SR := if n / 4 % 2 == 1 then 0 else c.SR, MP := if n / 8 % 2 == 1 then 0 else c.MP)
  {
    assert |c.ST| == 16;
    hide CoreOk;
    StatusUnitIs(c, SetSt(n, b));
    StatusUnitIs(c, ClearHst(n));
    hide After;
  }

  /** ST=0 n, ST=1 n, and the four hardware status bits cleared through a mask. */
  lemma FlagWrites(s: Saturn, w: seq<int>)
    requires At(s, w) && Nibbles(w) && w[0] == 8 && (w[1] == 2 || w[1] == 4 || w[1] == 5)
    ensures 0 <= w[2] < 16 == |s.core.ST|
    ensures w[1] == 2 ==>
              Leaves(s, s.core.(XM := if w[2] % 2 == 1 then 0 else s.core.XM,
                                SB := if w[2] / 2 % 2 == 1 then 0 else s.core.SB,
                                SR := if w[2] / 4 % 2 == 1 then 0 else s.core.SR,
                                MP := if w[2] / 8 % 2 == 1 then 0 else s.core.MP), 3)
    ensures w[1] == 4 ==> Leaves(s, s.core.(ST := s.core.ST[w[2] := 0]), 3)
    ensures w[1] == 5 ==> Leaves(s, s.core.(ST := s.core.ST[w[2] := 1]), 3)
  {
    hide *;
    AtOk(s, w);
    AllNibbles(w);
    FlagDecodes(w);
    var b := if w[1] == 5 then 1 else 0;
    FlagAfter(s.core, w[2], b);
    Does(s, w, if w[1] == 2 then ClearHst(w[2]) else SetSt(w[2], b), 3);
  }

  lemma NibbleDecodes(w: seq<int>)
    requires Nibbles(w) && w[0] == 8 && w[1] == 0
    ensures 0 <= w[3] < 16
    ensures w[2] == 12 ==> DecodeAt(w) == Inline(CFromP(w[3]), 4)
    ensures w[2] == 13 ==> DecodeAt(w) == Inline(PFromC(w[3]), 4)
    ensures w[2] == 15 ==> DecodeAt(w) == Inline(SwapPC(w[3]), 4)
    ensures w[2] == 14 ==> DecodeAt(w) == Inline(ServiceRequest, 3)
    ensures w[2] == 9 ==> DecodeAt(w) == Inline(CPlusP, 3)
  {
    InGroup8(w);
    hide DecodeAt, Group808, Imm, Signed, EqualGroup, OrderGroup;
  }

  lemma MoveUnitIs(c: Core, d: Data)
    requires CoreOk(c) && DataOk(d) && UnitOf(d) == MoveUnit
    ensures After(c, d) == MoveStep(c, d)
  {
    AfterIs(c, d);
    hide CoreOk, DataOk, After, MoveStep;
  }

  lemma NibbleAfter(c: Core, n: nat)
    requires CoreOk(c) && n < 16
    ensures |c.C| == 16 && 0 <= c.C[n]
    ensures After(c, CFromP(n)) == c.(C := c.C[n := c.P])
    ensures After(c, PFromC(n)) == c.(P := c.C[n])
    ensures After(c, SwapPC(n)) == c.(C := c.C[n := c.P], P := c.C[n])
  {
    assert |c.C| == 16 && Below(c.C, 16);
    hide CoreOk;
    MoveUnitIs(c, CFromP(n));
    MoveUnitIs(c, PFromC(n));
    MoveUnitIs(c, SwapPC(n));
    hide After, SetField, GetStart, GetEnd, Zeros, ShiftLeft, ShiftRight, ShiftRightBit, Wrap, InNibbles, WithBit;
  }

  lemma RequestAfter(c: Core)
    requires CoreOk(c)
    ensures |c.C| == 16 && After(c, ServiceRequest) == c.(C := c.C[0 := 0], SR := 0)
  {
    LengthsOf(c);
    hide CoreOk;
    StatusUnitIs(c, ServiceRequest);
    hide After;
  }

  /** C=P n, P=C n, CPEX n and SREQ?. */
  lemma NibbleMoves(s: Saturn, w: seq<int>)
    requires At(s, w) && Nibbles(w) && w[0] == 8 && w[1] == 0 && 12 <= w[2]
    ensures 0 <= w[3] < 16 == |s.core.C| && 0 <= s.core.C[w[3]]
    ensures w[2] == 12 ==> Leaves(s, s.core.(C := s.core.C[w[3] := s.core.P]), 4)
    ensures w[2] == 13 ==> Leaves(s, s.core.(P := s.core.C[w[3]]), 4)
    ensures w[2] == 15 ==> Leaves(s, s.core.(C := s.core.C[w[3] := s.core.P], P := s.core.C[w[3]]), 4)
    ensures w[2] == 14 ==> Leaves(s, s.core.(C := s.core.C[0 := 0], SR := 0), 3)
  {
    hide *;
    AtOk(s, w);
    AllNibbles(w);
    NibbleDecodes(w);
    NibbleAfter(s.core, w[3]);
    if w[2] == 14 {
      RequestAfter(s.core);
      Does(s, w, ServiceRequest, 3);
    } else {
      Does(s, w, if w[2] == 12 then CFromP(w[3]) else if w[2] == 13 then PFromC(w[3]) else SwapPC(w[3]), 4);
    }
  }


  // ------------------------------------------------------------- the input and output lines

  predicate Meets(x: bv16, m: bv16) { x & m != 0 }

  /** The rows that the output register selects among the first n. */
  ghost predicate Selected(out: seq<int>, rows: seq<bv16>, n: nat, m: bv16)
    requires n <= |rows|
  {
    exists i :: 0 <= i < n && StatusBit(out, i) == 1 && Meets(rows[i], m)
  }

  lemma AndOfOr(x: bv16, y: bv16, m: bv16)
    ensures ((x | y) & m) == ((x & m) | (y & m))
  {
  }

  lemma OrIsZero(x: bv16, y: bv16)
    ensures (x | y) == 0 <==> x == 0 && y == 0
  {
  }

  lemma AndOfZero(m: bv16)
    ensures (0 & m) == 0
  {
  }

  lemma MeetsOr(x: bv16, y: bv16, m: bv16)
    ensures Meets(x | y, m) <==> Meets(x, m) || Meets(y, m)
    ensures !Meets(0, m)
  {
    AndOfOr(x, y, m);
    OrIsZero(x & m, y & m);
    AndOfZero(m);
  }

  lemma {:induction false} LinesMeet(out: seq<int>, rows: seq<bv16>, n: nat, m: bv16)
    requires |out| == 3 && |rows| == 9 && n <= 9
    ensures Meets(Lines(out, rows, n), m) <==> Selected(out, rows, n, m)
  {
    hide *;
    MeetsOr(0, 0, m);
    if n == 0 {
      NoLines(out, rows, m);
    } else {
      LinesMeet(out, rows, n - 1, m);
      MeetsOr(Lines(out, rows, n - 1), rows[n - 1], m);
      OneRow(out, rows, n);
      OneSelected(out, rows, n, m);
    }
  }

  lemma NoLines(out: seq<int>, rows: seq<bv16>, m: bv16)
    requires |out| == 3 && |rows| == 9
    ensures Lines(out, rows, 0) == 0 && !Selected(out, rows, 0, m)
  {
    hide Meets;
  }

  lemma OneRow(out: seq<int>, rows: seq<bv16>, n: nat)
    requires |out| == 3 && |rows| == 9 && 0 < n <= 9
    ensures var p := Lines(out, rows, n - 1);
            Lines(out, rows, n) == if StatusBit(out, n - 1) == 1 then p | rows[n - 1] else p
  {
    hide Bit;
  }

  lemma OneSelected(out: seq<int>, rows: seq<bv16>, n: nat, m: bv16)
    requires 0 < n <= |rows|
    ensures Selected(out, rows, n, m) <==>
              Selected(out, rows, n - 1, m) || (StatusBit(out, n - 1) == 1 && Meets(rows[n - 1], m))
  {
    hide Meets, StatusBit;
  }

  /** A line is up, in register x, exactly when a selected row pulls it up; the rest of the register stays. */
  ghost predicate KeysIn(c: Core, d: Core, x: char)
  {
    var r, r' := Get(c, RegNamed(x)), Get(d, RegNamed(x));
    d == Set(c, RegNamed(x), r') && |r| == |r'| == 16 && |c.rows| == 9 && r'[4..] == r[4..] &&
    exists lines: bv16 :: Value(r'[..4], 16) == lines as int && PulledUp(lines, c.OUT, c.rows)
  }

  ghost predicate PulledUp(lines: bv16, out: seq<int>, rows: seq<bv16>)
    requires |rows| == 9
  {
    forall m: bv16 :: Meets(lines, m) <==> Selected(out, rows, 9, m)
  }

  lemma InAfter(c: Core, r: Reg)
    requires CoreOk(c)
    ensures |Get(c, r)| == 16 && |c.OUT| == 3 && |c.rows| == 9
    ensures After(c, In(r)) == Set(c, r, Low(Get(c, r), InNibbles(c.OUT, c.rows)))
  {
    assert |Get(c, r)| == 16 && |c.OUT| == 3 && |c.rows| == 9;
    hide CoreOk, InNibbles;
    MoveUnitIs(c, In(r));
    hide After;
  }

  lemma InNumber(out: seq<int>, rows: seq<bv16>)
    requires |out| == 3 && |rows| == 9
    ensures Value(InNibbles(out, rows), 16) == Lines(out, rows, 9) as int
  {
    var x := Lines(out, rows, 9) as int;
    hide Lines;
    SplitExact(x, 16, 4);
    PowFour();
    hide Split, Value, Pow;
  }

  lemma PowFour()
    ensures Pow(16, 4) == 0x10000
  {
    Pow16(4);
  }

  lemma LowParts(r: seq<int>, v: seq<int>)
    requires |v| <= |r|
    ensures Low(r, v)[..|v|] == v && Low(r, v)[|v|..] == r[|v|..] && |Low(r, v)| == |r|
  {
  }

  lemma InMeans(c: Core, x: char)
    requires CoreOk(c)
    ensures KeysIn(c, After(c, In(RegNamed(x))), x)
  {
    hide CoreOk, After, InNibbles, Low, Lines, Value, Selected, Meets;
    var r := RegNamed(x);
    InAfter(c, r);
    InNumber(c.OUT, c.rows);
    LowParts(Get(c, r), InNibbles(c.OUT, c.rows));
    SetIs(c, r, Low(Get(c, r), InNibbles(c.OUT, c.rows)));
    LinesPulledUp(c.OUT, c.rows);
    hide PulledUp;
  }

  lemma LinesPulledUp(out: seq<int>, rows: seq<bv16>)
    requires |out| == 3 && |rows| == 9
    ensures PulledUp(Lines(out, rows, 9), out, rows)
  {
    hide Lines, Selected, Meets;
    forall m: bv16 ensures Meets(Lines(out, rows, 9), m) <==> Selected(out, rows, 9, m) {
      LinesMeet(out, rows, 9, m);
    }
  }

  lemma SetIs(c: Core, r: Reg, v: seq<int>)
    ensures Get(Set(c, r, v), r) == v
  {
  }

  lemma OutAfter(c: Core)
    requires CoreOk(c)
    ensures |c.C| == 16 && |c.OUT| == 3
    ensures After(c, Out(18)) == c.(OUT := c.OUT[0 := c.C[0]]) && After(c, Out(17)) == c.(OUT := c.C[..3])
  {
    assert |c.C| == 16 && |c.OUT| == 3;
    assert [c.C[0]] + c.OUT[1..] == c.OUT[0 := c.C[0]] && c.C[..1] == [c.C[0]] && c.C[..3] + c.OUT[3..] == c.C[..3];
    hide CoreOk;
    MoveUnitIs(c, Out(18));
    MoveUnitIs(c, Out(17));
    hide After;
  }

  lemma PortDecodes(w: seq<int>)
    requires Nibbles(w) && w[0] == 8 && w[1] == 0
    ensures w[2] == 0 ==> DecodeAt(w) == Inline(Out(18), 3)
    ensures w[2] == 1 ==> DecodeAt(w) == Inline(Out(17), 3)
    ensures w[2] == 2 ==> DecodeAt(w) == Inline(In(RegNamed('A')), 3)
    ensures w[2] == 3 ==> DecodeAt(w) == Inline(In(RegNamed('C')), 3)
  {
    InGroup8(w);
    hide DecodeAt, Group808, Imm;
  }

  /** OUT=CS, OUT=C, A=IN and C=IN. */
  lemma Ports(s: Saturn, w: seq<int>)
    requires At(s, w) && Nibbles(w) && w[0] == 8 && w[1] == 0 && 0 <= w[2] < 4
    ensures Leaves(s, Next(s), 3) && |s.core.C| == 16 && |s.core.OUT| == 3
    ensures w[2] == 0 ==> Next(s) == s.core.(OUT := s.core.OUT[0 := s.core.C[0]])
    ensures w[2] == 1 ==> Next(s) == s.core.(OUT := s.core.C[..3])
    ensures w[2] >= 2 ==> KeysIn(s.core, Next(s), if w[2] == 2 then 'A' else 'C')
  {
    hide *;
    AtOk(s, w);
    AllNibbles(w);
    PortDecodes(w);
    OutAfter(s.core);
    var x := if w[2] == 2 then 'A' else 'C';
    var d := if w[2] == 0 then Out(18) else if w[2] == 1 then Out(17) else In(RegNamed(x));
    Does(s, w, d, 3);
    StepLeft(s, After(s.core, d), 3);
    InMeans(s.core, x);
  }

  // ------------------------------------------------------------- the controllers' commands

  lemma BusAfter(c: Core)
    requires CoreOk(c)
    ensures |c.C| == 16 && Shape(c.mem.ctl)
    ensures After(c, Config) == c.(mem := c.mem.(ctl := Configure(c.mem.ctl, Value(c.C[..5], 16))))
    ensures After(c, Uncnfg) == c.(mem := c.mem.(ctl := Unconfigure(c.mem.ctl, Value(c.C[..5], 16))))
    ensures After(c, ResetBus) == c.(mem := c.mem.(ctl := Reset()))
  {
    hide CoreOk, Shape, After, BusStep, Configure, Unconfigure, Value;
    BusUnitIs(c, Config);
    BusUnitIs(c, Uncnfg);
    BusUnitIs(c, ResetBus);
    BusSteps(c);
  }

  lemma BusSteps(c: Core)
    requires CoreOk(c)
    ensures |c.C| == 16 && Shape(c.mem.ctl)
    ensures BusStep(c, Config) == c.(mem := c.mem.(ctl := Configure(c.mem.ctl, Value(c.C[..5], 16))))
    ensures BusStep(c, Uncnfg) == c.(mem := c.mem.(ctl := Unconfigure(c.mem.ctl, Value(c.C[..5], 16))))
    ensures BusStep(c, ResetBus) == c.(mem := c.mem.(ctl := Reset()))
  {
    assert |c.C| == 16 && Shape(c.mem.ctl);
    hide CoreOk, Shape, Configure, Unconfigure, RecallRun, SetField, FieldOf, GetStart, GetEnd, Split, ChipId, Low;
  }

  lemma BusUnitIs(c: Core, d: Data)
    requires CoreOk(c) && DataOk(d) && UnitOf(d) == BusUnit
    ensures After(c, d) == BusStep(c, d)
  {
    AfterIs(c, d);
    hide CoreOk, DataOk, After, BusStep;
  }

  lemma BusDecodes(w: seq<int>)
    requires Nibbles(w) && w[0] == 8 && w[1] == 0
    ensures w[2] == 4 ==> DecodeAt(w) == Inline(Uncnfg, 3)
    ensures w[2] == 5 ==> DecodeAt(w) == Inline(Config, 3)
    ensures w[2] == 6 ==> DecodeAt(w) == Inline(Identify, 3)
    ensures w[2] == 10 ==> DecodeAt(w) == Inline(ResetBus, 3)
  {
    InGroup8(w);
    hide DecodeAt, Group808, Imm;
  }

  /** UNCNFG, CONFIG and RESET work on the chain, with the number in the address field of C. */
  lemma ChainCommands(s: Saturn, w: seq<int>)
    requires At(s, w) && Nibbles(w) && w[0] == 8 && w[1] == 0
    ensures |s.core.C| == 16 && Shape(s.core.mem.ctl)
    ensures var a, m := Value(s.core.C[..5], 16), s.core.mem;
            (w[2] == 4 ==> Leaves(s, s.core.(mem := m.(ctl := Unconfigure(m.ctl, a))), 3)) &&
            (w[2] == 5 ==> Leaves(s, s.core.(mem := m.(ctl := Configure(m.ctl, a))), 3)) &&
            (w[2] == 10 ==> Leaves(s, s.core.(mem := m.(ctl := Reset())), 3))
  {
    hide *;
    AtOk(s, w);
    AllNibbles(w);
    BusDecodes(w);
    BusAfter(s.core);
    if w[2] == 4 { Does(s, w, Uncnfg, 3); }
    if w[2] == 5 { Does(s, w, Config, 3); }
    if w[2] == 10 { Does(s, w, ResetBus, 3); }
  }

  /** C=a, with the rest of C kept, and then the command, for each a in turn. */
  ghost function Commanded(c: Core, d: Data, vs: seq<int>): Core
    decreases |vs|
  {
    if vs == [] || |c.C| < 5 then c
    else Commanded(After(c.(C := Low(c.C, Split(vs[0], 16, 5))), d), d, vs[1..])
  }

  ghost predicate Addresses(vs: seq<int>) { forall i :: 0 <= i < |vs| ==> 0 <= vs[i] < 0x100000 }

  lemma WithAddress(c: Core, a: int)
    requires CoreOk(c) && 0 <= a < 0x100000
    ensures |c.C| == 16
    ensures var d := c.(C := Low(c.C, Split(a, 16, 5)));
            CoreOk(d) && d.mem == c.mem && |d.C| == 16 && Value(d.C[..5], 16) == a
  {
    PcToRegOk(c, RC, a);
    SetIsC(c, Low(c.C, Split(a, 16, 5)));
    LengthsOf(c);
    LowParts(c.C, Split(a, 16, 5));
    SplitExact(a, 16, 5);
    Pow16(5);
    hide CoreOk, Split, Low, Value, Pow;
  }

  lemma CommandOne(c: Core, a: int)
    requires CoreOk(c) && 0 <= a < 0x100000
    ensures |c.C| == 16 && Shape(c.mem.ctl)
    ensures var x := c.(C := Low(c.C, Split(a, 16, 5)));
            var u, v := After(x, Uncnfg), After(x, Config);
            CoreOk(u) && u.mem == c.mem.(ctl := Unconfigure(c.mem.ctl, a)) &&
            CoreOk(v) && v.mem == c.mem.(ctl := Configure(c.mem.ctl, a))
  {
    hide *;
    WithAddress(c, a);
    BusAfter(c);
    var x := c.(C := Low(c.C, Split(a, 16, 5)));
    BusAfter(x);
    BusOk(x);
  }

  lemma BusOk(c: Core)
    requires CoreOk(c)
    ensures CoreOk(After(c, Uncnfg)) && CoreOk(After(c, Config))
  {
    AfterIs(c, Uncnfg);
    AfterIs(c, Config);
    hide CoreOk, After;
  }

  lemma RestOf(vs: seq<int>)
    requires Addresses(vs) && vs != []
    ensures Addresses(vs[1..]) && 0 <= vs[0] < 0x100000
  {
  }

  lemma CommandedNext(c: Core, d: Data, vs: seq<int>)
    requires vs != [] && |c.C| == 16
    ensures Commanded(c, d, vs) == Commanded(After(c.(C := Low(c.C, Split(vs[0], 16, 5))), d), d, vs[1..])
  {
    hide After, Low, Split;
  }

  lemma ChainNext(m: seq<Ctl>, vs: seq<int>)
    requires Shape(m) && vs != []
    ensures |m| == 6 && UnconfigureAll(m, vs) == UnconfigureAll(Unconfigure(m, vs[0]), vs[1..])
    ensures ConfigureAll(m, vs) == ConfigureAll(Configure(m, vs[0]), vs[1..])
  {
    hide Unconfigure, Configure;
  }

  lemma ChainNone(m: seq<Ctl>, c: Core, d: Data)
    requires Shape(m)
    ensures |m| == 6 && UnconfigureAll(m, []) == m == ConfigureAll(m, []) && Commanded(c, d, []) == c
  {
  }

  lemma {:induction false} UncnfgAll(c: Core, vs: seq<int>)
    requires CoreOk(c) && Addresses(vs)
    ensures Shape(c.mem.ctl) && |c.mem.ctl| == 6
    ensures var d := Commanded(c, Uncnfg, vs);
            CoreOk(d) && d.mem == c.mem.(ctl := UnconfigureAll(c.mem.ctl, vs))
    decreases |vs|
  {
    hide *;
    BusAfter(c);
    ChainNone(c.mem.ctl, c, Uncnfg);
    if vs != [] {
      RestOf(vs);
      CommandOne(c, vs[0]);
      CommandedNext(c, Uncnfg, vs);
      ChainNext(c.mem.ctl, vs);
      UncnfgAll(After(c.(C := Low(c.C, Split(vs[0], 16, 5))), Uncnfg), vs[1..]);
    }
  }

  lemma {:induction false} ConfigAll(c: Core, vs: seq<int>)
    requires CoreOk(c) && Addresses(vs)
    ensures Shape(c.mem.ctl)
    ensures var d := Commanded(c, Config, vs);
            CoreOk(d) && d.mem == c.mem.(ctl := ConfigureAll(c.mem.ctl, vs))
    decreases |vs|
  {
    hide *;
    BusAfter(c);
    ChainNone(c.mem.ctl, c, Config);
    if vs != [] {
      RestOf(vs);
      CommandOne(c, vs[0]);
      CommandedNext(c, Config, vs);
      ChainNext(c.mem.ctl, vs);
      ConfigAll(After(c.(C := Low(c.C, Split(vs[0], 16, 5))), Config), vs[1..]);
    }
  }

  /** Sizes and bases are addresses, as the address field of C always is. */
  ghost predicate Addressed(m: seq<Ctl>)
  {
    forall i :: 0 <= i < |m| ==> 0 <= m[i].config0 < 0x100000 && 0 <= m[i].config1 < 0x100000
  }

  lemma {:induction false} RefillAddresses(m: seq<Ctl>, out: set<nat>, from: nat)
    requires |m| == 6 && from <= 6 && Addressed(m)
    ensures Addresses(Refill(m, out, from))
    decreases 6 - from
  {
    if from < 6 { RefillAddresses(m, out, from + 1); }
  }

  /**
   The ROM dumper's manoeuvre with the processor's own instructions: devices taken out by UNCNFG,
   then sizes and bases given back by CONFIG in chain order; all of memory is as it was.
   */
  lemma ManoeuvreRestores(c: Core, bases: seq<int>) returns (out: set<nat>)
    requires CoreOk(c) && Inv(c.mem.ctl) && Addressed(c.mem.ctl) && Outstanding(c.mem.ctl) == 0
    requires Addresses(bases) && 0 !in bases
    ensures |c.mem.ctl| == 6
    ensures var d := Commanded(c, Uncnfg, bases);
            d.mem == c.mem.(ctl := TakenOut(c.mem.ctl, out)) &&
            Commanded(d, Config, Refill(c.mem.ctl, out, 0)).mem == c.mem
  {
    hide *;
    BusAfter(c);
    ChainNone(c.mem.ctl, c, Uncnfg);
    UncnfgAll(c, bases);
    out := TakeOutAndRestore(c.mem.ctl, bases);
    RefillAddresses(c.mem.ctl, out, 0);
    ConfigAll(Commanded(c, Uncnfg, bases), Refill(c.mem.ctl, out, 0));
  }

  /** What CONFIG, UNCNFG and RESET leave in the chain are addresses again. */
  lemma AddressedStays(c: Core)
    requires CoreOk(c) && Addressed(c.mem.ctl)
    ensures Addressed(After(c, Config).mem.ctl) && Addressed(After(c, Uncnfg).mem.ctl)
    ensures Addressed(After(c, ResetBus).mem.ctl)
  {
    hide *;
    BusAfter(c);
    LengthsOf(c);
    AddressFits(c.C);
    ChainAddressed(c.mem.ctl, Value(c.C[..5], 16));
  }

  lemma ChainAddressed(m: seq<Ctl>, a: int)
    requires Shape(m) && Addressed(m) && 0 <= a < 0x100000
    ensures |m| == 6 && Addressed(Configure(m, a)) && Addressed(Unconfigure(m, a)) && Addressed(Reset())
  {
    hide Configure, Unconfigure;
    var i := FirstUnconfigured(m, a, 0);
    var j := FirstBased(m, a, 0);
  }

  lemma AddressFits(r: seq<int>)
    requires |r| == 16 && Below(r, 16)
    ensures 0 <= Value(r[..5], 16) < 0x100000
  {
    ValueBound(r[..5], 16);
    Pow16(5);
    hide Value, Pow;
  }

  lemma SystemDecodes(w: seq<int>)
    requires Nibbles(w) && w[0] == 8 && w[1] == 0
    ensures w[2] == 7 ==> DecodeAt(w) == Inline(Data.Shutdn, 3)
    ensures w[2] == 8 && w[3] == 0 ==> DecodeAt(w) == Inline(IntOn, 4)
    ensures w[2] == 8 && w[3] == 15 ==> DecodeAt(w) == Inline(IntOff, 4)
    ensures w[2] == 8 && (w[3] == 3 || w[3] == 13) ==> DecodeAt(w) == Inline(Bus, 4)
    ensures w[2] == 11 ==> DecodeAt(w) == Inline(Bus, 3)
  {
    InGroup8(w);
    hide DecodeAt, Imm;
  }

  lemma SystemAfter(c: Core)
    requires CoreOk(c)
    ensures After(c, Data.Shutdn) == c.(shutdown := true) && After(c, Bus) == c
    ensures After(c, IntOn) == c.(kbdIen := true) && After(c, IntOff) == c.(kbdIen := false)
  {
    hide CoreOk, After, Low, StatusBits, StatusNibbles, Zeros, Bit, StatusStep;
    StatusUnitIs(c, Data.Shutdn);
    StatusUnitIs(c, Bus);
    StatusUnitIs(c, IntOn);
    StatusUnitIs(c, IntOff);
    SystemSteps(c);
  }

  lemma SystemSteps(c: Core)
    requires CoreOk(c)
    ensures StatusStep(c, Data.Shutdn) == c.(shutdown := true) && StatusStep(c, Bus) == c
    ensures StatusStep(c, IntOn) == c.(kbdIen := true) && StatusStep(c, IntOff) == c.(kbdIen := false)
  {
    hide CoreOk, StatusStep;
    SystemStep(c, Data.Shutdn);
    SystemStep(c, Bus);
    SystemStep(c, IntOn);
    SystemStep(c, IntOff);
  }

  lemma SystemStep(c: Core, d: Data)
    requires CoreOk(c)
    ensures d.Shutdn? ==> StatusStep(c, d) == c.(shutdown := true)
    ensures d.Bus? ==> StatusStep(c, d) == c
    ensures d.IntOn? || d.IntOff? ==> StatusStep(c, d) == c.(kbdIen := d.IntOn?)
  {
    hide CoreOk, Low, StatusBits, StatusNibbles, Zeros, Bit;
  }

  /** SHUTDN, INTON and INTOFF; BUSCB, BUSCC and BUSCD do nothing. */
  lemma SystemCommands(s: Saturn, w: seq<int>)
    requires At(s, w) && Nibbles(w) && w[0] == 8 && w[1] == 0
    ensures w[2] == 7 ==> Leaves(s, s.core.(shutdown := true), 3)
    ensures w[2] == 8 && w[3] == 0 ==> Leaves(s, s.core.(kbdIen := true), 4)
    ensures w[2] == 8 && w[3] == 15 ==> Leaves(s, s.core.(kbdIen := false), 4)
    ensures w[2] == 8 && (w[3] == 3 || w[3] == 13) ==> Leaves(s, s.core, 4)
    ensures w[2] == 11 ==> Leaves(s, s.core, 3)
  {
    hide *;
    AtOk(s, w);
    AllNibbles(w);
    SystemDecodes(w);
    SystemAfter(s.core);
    if w[2] == 7 { Does(s, w, Data.Shutdn, 3); }
    if w[2] == 8 && w[3] == 0 { Does(s, w, IntOn, 4); }
    if w[2] == 8 && w[3] == 15 { Does(s, w, IntOff, 4); }
    if w[2] == 8 && (w[3] == 3 || w[3] == 13) { Does(s, w, Bus, 4); }
    if w[2] == 11 { Does(s, w, Bus, 3); }
  }

  /** The number that C=ID brings: zero when no controller waits, else one of the first that does. */
  ghost predicate IdentityOf(m: seq<Ctl>, id: int)
    requires |m| == 6
  {
    if forall i :: 0 <= i < 6 ==> m[i].unconfigured == 0 then id == 0
    else exists i :: 0 <= i < 6 && m[i].unconfigured != 0 && (forall k :: 0 <= k < i ==> m[k].unconfigured == 0) &&
                     id == IdentityAt(i, m[i].unconfigured)
  }

  /** The identities of the second, third and fourth after the system RAM: before their size, and before their base. */
  function IdentityAt(i: nat, waiting: nat): int
  {
    if i < 2 then 0
    else if i == 2 then (if waiting == 2 then 0x05 else 0xf6)
    else if i == 3 then (if waiting == 2 then 0x07 else 0xf8)
    else if waiting == 2 then 0x01 else 0xf2
  }

  lemma {:induction false} IdentityFrom(m: seq<Ctl>, i: nat)
    requires Shape(m) && i <= 6 && forall k :: 0 <= k < i ==> m[k].unconfigured == 0
    ensures |m| == 6 && IdentityOf(m, ChipId(m, i)) && 0 <= ChipId(m, i) < 0x1000
    decreases 6 - i
  {
    if i < 6 {
      if m[i].unconfigured == 0 { IdentityFrom(m, i + 1); } else { IdentityHere(m, i); }
    }
  }

  lemma IdentityHere(m: seq<Ctl>, i: nat)
    requires Shape(m) && i < 6 && m[i].unconfigured != 0
    ensures ChipId(m, i) == IdentityAt(i, m[i].unconfigured) && 0 <= ChipId(m, i) < 0x1000
  {
    assert i == 0 || i == 1 || i == 2 || i == 3 || i == 4 || i == 5;
  }

  lemma FirstIdentity(m: seq<Ctl>)
    requires Shape(m)
    ensures |m| == 6 && IdentityOf(m, ChipId(m)) && 0 <= ChipId(m) < 0x1000
  {
    hide ChipId, IdentityOf;
    IdentityFrom(m, 0);
  }

  lemma IdAfter(c: Core)
    requires CoreOk(c)
    ensures |c.C| == 16 && Shape(c.mem.ctl)
    ensures After(c, Identify) == c.(C := Low(c.C, Split(ChipId(c.mem.ctl), 16, 3)))
  {
    assert |c.C| == 16 && Shape(c.mem.ctl);
    hide CoreOk, Shape, Configure, Unconfigure, RecallRun, SetField, FieldOf, GetStart, GetEnd, Split, ChipId, Low;
    BusUnitIs(c, Identify);
    hide After;
  }

  /** C=ID: the identity goes into the low three nibbles of C. */
  lemma Identifies(s: Saturn, w: seq<int>)
    requires At(s, w) && Nibbles(w) && w[0] == 8 && w[1] == 0 && w[2] == 6
    ensures |s.core.C| == |Next(s).C| == 16 && |s.core.mem.ctl| == 6
    ensures Leaves(s, s.core.(C := Next(s).C), 3) && Next(s).C[3..] == s.core.C[3..]
    ensures IdentityOf(s.core.mem.ctl, Value(Next(s).C[..3], 16))
  {
    hide *;
    AtOk(s, w);
    BusDecodes(w);
    Does(s, w, Identify, 3);
    StepLeft(s, After(s.core, Identify), 3);
    IdMeans(s.core);
  }

  lemma IdMeans(c: Core)
    requires CoreOk(c)
    ensures var d := After(c, Identify);
            |c.C| == |d.C| == 16 && |c.mem.ctl| == 6 && d == c.(C := d.C) && d.C[3..] == c.C[3..] &&
            IdentityOf(c.mem.ctl, Value(d.C[..3], 16))
  {
    hide CoreOk, Shape, After, ChipId, Low, Split, Value, Pow, IdentityOf;
    IdAfter(c);
    var id := ChipId(c.mem.ctl);
    FirstIdentity(c.mem.ctl);
    LowParts(c.C, Split(id, 16, 3));
    PowThree();
    SplitExact(id, 16, 3);
  }

  lemma PowThree()
    ensures Pow(16, 3) == 0x1000
  {
    Pow16(3);
  }

  // ------------------------------------------------------------- pointers

  lemma PointerUnitIs(c: Core, d: Data)
    requires CoreOk(c) && DataOk(d) && UnitOf(d) == PointerUnit
    ensures After(c, d) == PointerStep(c, d)
  {
    AfterIs(c, d);
    hide CoreOk, DataOk, After, PointerStep;
  }

  predicate MovesPointer(w: seq<int>)
    requires Nibbles(w)
  {
    w[0] == 1 && (6 <= w[1] <= 8 || w[1] == 12)
  }

  /** The distance moved: one to sixteen, forwards or back. */
  function Distance(w: seq<int>): int
    requires Nibbles(w)
  {
    if w[1] < 8 then w[2] + 1 else -(w[2] + 1)
  }

  lemma MoveDecodes(w: seq<int>)
    requires Nibbles(w) && MovesPointer(w)
    ensures DecodeAt(w) == Inline(AddD(if w[1] == 6 || w[1] == 8 then 0 else 1, Distance(w)), 3)
  {
    InGroup1(w);
    hide DecodeAt;
  }

  lemma AddDAfter(c: Core, k: nat, n: int)
    requires CoreOk(c) && k < 2
    ensures var x := (if k == 0 then c.D0 else c.D1) + n;
            var d := c.(CARRY := if 0 <= x < 0x100000 then 0 else 1);
            After(c, AddD(k, n)) == if k == 0 then d.(D0 := x % 0x100000) else d.(D1 := x % 0x100000)
  {
    hide CoreOk, After;
    AfterAddD(c, k, n);
  }

  /** D0=D0+n, D0=D0-n, D1=D1+n and D1=D1-n: modulo 2^20, with a carry exactly when the end is passed. */
  lemma PointerMoves(s: Saturn, w: seq<int>)
    requires At(s, w) && Nibbles(w) && MovesPointer(w)
    ensures var zero := w[1] == 6 || w[1] == 8;
            var x := (if zero then s.core.D0 else s.core.D1) + Distance(w);
            var d := s.core.(CARRY := if 0 <= x < 0x100000 then 0 else 1);
            Leaves(s, if zero then d.(D0 := x % 0x100000) else d.(D1 := x % 0x100000), 3)
  {
    hide *;
    AtOk(s, w);
    AllNibbles(w);
    MoveDecodes(w);
    var k := if w[1] == 6 || w[1] == 8 then 0 else 1;
    Does(s, w, AddD(k, Distance(w)), 3);
    AddDAfter(s.core, k, Distance(w));
  }

  /** The low n nibbles of x replaced by a number below 16^n. */
  ghost predicate LowReplaced(x: int, x': int, v: int, n: nat)
  {
    Pow(16, n) > 0 && 0 <= v < Pow(16, n) && x' % Pow(16, n) == v && x' / Pow(16, n) == x / Pow(16, n)
  }

  lemma LowDigitsReplace(x: int, v: seq<int>)
    requires Below(v, 16)
    ensures LowReplaced(x, LowDigits(x, v), Value(v, 16), |v|)
  {
    ValueBound(v, 16);
    var q, lo := Pow(16, |v|), Value(v, 16);
    QuotientOf(q, lo, x / q);
    Remainder(q, lo, x / q);
    hide Value, Pow;
  }

  lemma Remainder(q: int, lo: int, hi: int)
    requires 0 <= lo < q
    ensures (lo + q * hi) % q == lo
  {
    QuotientOf(q, lo, hi);
    var x := lo + q * hi;
    assert x == q * (x / q) + x % q;
  }

  predicate LoadsPointer(w: seq<int>)
    requires Nibbles(w)
  {
    w[0] == 1 && (9 <= w[1] <= 11 || 13 <= w[1])
  }

  function LoadedNibbles(w: seq<int>): (n: nat)
    requires Nibbles(w) && LoadsPointer(w)
    ensures n <= 5
  {
    if w[1] == 9 || w[1] == 13 then 2 else if w[1] == 10 || w[1] == 14 then 4 else 5
  }

  lemma LoadDecodes(w: seq<int>)
    requires Nibbles(w) && LoadsPointer(w)
    ensures var n := LoadedNibbles(w);
            DecodeAt(w) == Inline(LoadD(if w[1] < 12 then 0 else 1, w[2..2 + n]), n + 2)
  {
    InGroup1(w);
    hide DecodeAt;
  }

  lemma LoadDAfter(c: Core, k: nat, v: seq<int>)
    requires CoreOk(c) && k < 2 && |v| <= 5 && Below(v, 16)
    ensures var d := After(c, LoadD(k, v));
            if k == 0 then d == c.(D0 := d.D0) && LowReplaced(c.D0, d.D0, Value(v, 16), |v|)
            else d == c.(D1 := d.D1) && LowReplaced(c.D1, d.D1, Value(v, 16), |v|)
  {
    hide CoreOk, After, LowDigits, LowReplaced, Value, Below, Low, Split, Get, Set;
    LoadDIs(c, k, v);
    LowDigitsReplace(GetD(c, k), v);
  }

  lemma LoadDIs(c: Core, k: nat, v: seq<int>)
    requires CoreOk(c) && k < 2 && |v| <= 5 && Below(v, 16)
    ensures After(c, LoadD(k, v)) == SetPointer(c, k, LowDigits(GetD(c, k), v))
  {
    hide CoreOk, After, LowDigits, Low, Split, Get, Set, GetD, SetPointer, Below;
    PointerUnitIs(c, LoadD(k, v));
  }

  /** D0=(2), D0=(4), D0=(5) and the same of D1: the low nibbles of the pointer only. */
  lemma PointerLoads(s: Saturn, w: seq<int>)
    requires At(s, w) && Nibbles(w) && LoadsPointer(w)
    ensures Leaves(s, Next(s), LoadedNibbles(w) + 2)
    ensures var n, d := LoadedNibbles(w), Next(s);
            var v := Value(w[2..2 + n], 16);
            if w[1] < 12 then d == s.core.(D0 := d.D0) && LowReplaced(s.core.D0, d.D0, v, n)
            else d == s.core.(D1 := d.D1) && LowReplaced(s.core.D1, d.D1, v, n)
  {
    hide *;
    AtOk(s, w);
    AllNibbles(w);
    LoadDecodes(w);
    var k, v := if w[1] < 12 then 0 else 1, w[2..2 + LoadedNibbles(w)];
    Does(s, w, LoadD(k, v), LoadedNibbles(w) + 2);
    StepLeft(s, After(s.core, LoadD(k, v)), LoadedNibbles(w) + 2);
    BelowRun(w, 2, 2 + LoadedNibbles(w));
    LoadDAfter(s.core, k, v);
  }

  lemma BelowRun(w: seq<int>, i: nat, j: nat)
    requires Nibbles(w) && i <= j <= 21
    ensures |w| == 21 && Below(w[i..j], 16)
  {
  }

  /** Pointer D against register x over the low n nibbles: set from it, or exchanged with it. */
  ghost predicate PointerSet(x: int, x': int, r: seq<int>, r': seq<int>, n: nat, swap: bool)
    requires n <= |r|
  {
    LowReplaced(x, x', Value(r[..n], 16), n) && |r'| == |r| && r'[n..] == r[n..] &&
    if swap then Pow(16, n) > 0 && Value(r'[..n], 16) == x % Pow(16, n) else r' == r
  }

  lemma SwapReplaces(x: int, r: seq<int>, n: nat)
    requires RegOk(r) && 0 <= x < ADDR_SPACE && n <= 5
    ensures PointerSet(x, LowDigits(x, r[..n]), r, Low(r, Split(x, 16, n)), n, true)
    ensures PointerSet(x, LowDigits(x, r[..n]), r, r, n, false)
  {
    LowDigitsReplace(x, r[..n]);
    LowParts(r, Split(x, 16, n));
    SplitModulo(x, n);
    hide Value, Pow, Split, Low, LowDigits, LowReplaced;
  }

  lemma SplitModulo(x: int, n: nat)
    requires n <= 5
    ensures Pow(16, n) > 0 && Value(Split(x, 16, n), 16) == x % Pow(16, n)
  {
    Pow16(n);
    var q := Pow(16, n);
    SplitLow(x % q, x / q, n);
    SplitExact(x % q, 16, n);
    hide Pow, Split, Value;
  }

  lemma SetDAfter(c: Core, r: Reg, k: nat, n: nat)
    requires CoreOk(c) && k < 2 && 4 <= n <= 5
    ensures |Get(c, r)| == 16
    ensures After(c, SetD(k, r, n)) == SetPointer(c, k, LowDigits(GetD(c, k), Get(c, r)[..n]))
  {
    Laws.RegOf(c, r);
    PointerUnitIs(c, SetD(k, r, n));
    hide CoreOk, After, LowDigits, Low, Split, Get, Set, GetD, SetPointer;
  }

  lemma PointerGroupIs(k: nat)
    requires k < 16
    ensures var r := RegNamed(if k / 4 % 2 == 0 then 'A' else 'C');
            var n := if k < 8 then 5 else 4;
            PointerGroup(k) == if k / 2 % 2 == 0 then SetD(k % 2, r, n) else ExchD(r, k % 2, n)
  {
    Sixteen(k);
  }

  lemma PointerGroupDecodes(w: seq<int>)
    requires Nibbles(w) && w[0] == 1 && w[1] == 3
    ensures 0 <= w[2] < 16 && DecodeAt(w) == Inline(PointerGroup(w[2]), 3)
  {
    InGroup1(w);
    hide DecodeAt, PointerGroup;
  }

  /** The letters of the disassembler for the second nibble 3: pointer, register, and whether they are exchanged. */
  const NUMBERED := "0101010101010101"
  const POINTED := "AAAACCCCAAAACCCC"
  const EXCHANGED := "..XX..XX..XX..XX"

  lemma PointerTables(k: nat)
    requires k < 16
    ensures NUMBERED[k] == if k % 2 == 0 then '0' else '1'
    ensures POINTED[k] == (if k / 4 % 2 == 0 then 'A' else 'C') && (EXCHANGED[k] == 'X' <==> k / 2 % 2 == 1)
  {
    Sixteen(k);
  }

  ghost predicate PointerMeans(c: Core, d: Core, ptr: char, x: char, n: nat, swap: bool)
  {
    var r, r' := Get(c, RegNamed(x)), Get(d, RegNamed(x));
    n <= |r| &&
    if ptr == '0' then d == Set(c, RegNamed(x), r').(D0 := d.D0) && PointerSet(c.D0, d.D0, r, r', n, swap)
    else d == Set(c, RegNamed(x), r').(D1 := d.D1) && PointerSet(c.D1, d.D1, r, r', n, swap)
  }

  lemma PointerMeaning(c: Core, x: char, k: nat, n: nat, swap: bool)
    requires CoreOk(c) && k < 2 && 4 <= n <= 5
    ensures var r := RegNamed(x);
            PointerMeans(c, After(c, if swap then ExchD(r, k, n) else SetD(k, r, n)),
                         if k == 0 then '0' else '1', x, n, swap)
  {
    var r := RegNamed(x);
    Laws.RegOf(c, r);
    PointerOk(c, k);
    SetDAfter(c, r, k, n);
    AfterExchD(c, r, k, n);
    SwapReplaces(GetD(c, k), Get(c, r), n);
    var y := Low(Get(c, r), Split(GetD(c, k), 16, n));
    SetWithPointer(c, r, k, y, LowDigits(GetD(c, k), Get(c, r)[..n]));
    SetPointerKeeps(c, k, LowDigits(GetD(c, k), Get(c, r)[..n]), r);
    SetPointerKeeps(Set(c, r, y), k, LowDigits(GetD(c, k), Get(c, r)[..n]), r);
    hide CoreOk, After, LowDigits, Low, Split, PointerSet, RegOk;
  }

  lemma SetPointerKeeps(c: Core, k: nat, x: int, r: Reg)
    ensures var d := SetPointer(c, k, x);
            Get(d, r) == Get(c, r) && d == (if k == 0 then c.(D0 := x) else c.(D1 := x)) && Set(c, r, Get(c, r)) == c
  {
  }

  /** D0=A, D1=C, AD0EX, CD1XS and the rest of the sixteen: five nibbles of the pointer, or four for the short forms. */
  lemma PointerTransfers(s: Saturn, w: seq<int>)
    requires At(s, w) && Nibbles(w) && w[0] == 1 && w[1] == 3
    ensures 0 <= w[2] < 16 && Leaves(s, Next(s), 3)
    ensures PointerMeans(s.core, Next(s), NUMBERED[w[2]], POINTED[w[2]],
                         if w[2] < 8 then 5 else 4, EXCHANGED[w[2]] == 'X')
  {
    hide *;
    AtOk(s, w);
    AllNibbles(w);
    PointerGroupDecodes(w);
    PointerGroupIs(w[2]);
    PointerTables(w[2]);
    Does(s, w, PointerGroup(w[2]), 3);
    StepLeft(s, After(s.core, PointerGroup(w[2])), 3);
    var x, n := if w[2] / 4 % 2 == 0 then 'A' else 'C', if w[2] < 8 then 5 else 4;
    PointerMeaning(s.core, x, w[2] % 2, n, w[2] / 2 % 2 == 1);
  }
}
