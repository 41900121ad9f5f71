/**
 The instructions that change the flow of control, said nibble by nibble: jumps, calls and
 returns, the return stack, the tests of single bits, and the program counter as a register.
 */
module Branches {
  import opened Wrappers
  import opened Digits
  import opened Fields
  import opened Memory
  import opened ReturnStack
  import opened Interrupts
  import opened Instructions
  import opened Machine
  import opened Step
  import opened Laws
  import opened Listing
  import opened Manual
  import Moves

  /** One step leaves these registers and this flow of control. */
  ghost predicate Goes(s: Saturn, c: Core, f: Flow)
  {
    Ok(s) && StepOf(s) == (Saturn(c, f), false)
  }

  lemma GoesOn(s: Saturn, op: Opcode)
    requires Ok(s) && CoreOk(s.core) && Fetch(s) == op && !op.i.Illegal? && !op.i.Trap?
    ensures InstrOk(op.i) && Goes(s, Exec(s, op).core, Exec(s, op).flow)
  {
    hide CoreOk, Fetch, Exec;
  }

  // ------------------------------------------------------------- the return stack

  /** A stack of eight: a ninth address pushes out the oldest. */
  function Pushed(st: seq<int>, a: int): seq<int>
  {
    (if |st| < 8 then st else st[1..]) + [a]
  }

  /** Back to the address on top, or to zero from an empty stack. */
  function Back(f: Flow): Flow
  {
    if f.stack == [] then f.(pc := 0)
    else f.(pc := f.stack[|f.stack| - 1], stack := f.stack[..|f.stack| - 1])
  }

  lemma StackIs(f: Flow, a: int)
    requires |f.stack| <= NR_RSTK
    ensures Push(f.stack, a) == Pushed(f.stack, a) && PopTo(f) == Back(f)
    ensures Rti(f) == if f.pending then f.(pc := 0xf, enabled := false, pending := false)
                      else Back(f).(enabled := true, pending := false)
  {
  }

  lemma StackBound(s: Saturn)
    requires Ok(s)
    ensures |s.flow.stack| <= NR_RSTK
  {
    hide CoreOk;
  }

  lemma ReturnDecodes(w: seq<int>)
    requires Nibbles(w) && w[0] == 0
    ensures w[1] == 0 ==> DecodeAt(w) == Opcode(Return(true, None), 2)
    ensures w[1] == 1 ==> DecodeAt(w) == Opcode(Return(false, None), 2)
    ensures w[1] == 2 ==> DecodeAt(w) == Opcode(Return(false, Some(1)), 2)
    ensures w[1] == 3 ==> DecodeAt(w) == Opcode(Return(false, Some(0)), 2)
    ensures w[1] == 6 ==> DecodeAt(w) == Opcode(PushC, 2)
    ensures w[1] == 7 ==> DecodeAt(w) == Opcode(PopC, 2)
    ensures w[1] == 15 ==> DecodeAt(w) == Opcode(ReturnInt, 2)
  {
    InGroup0(w);
    hide DecodeAt, LogicGroup;
  }

  lemma ReturnRuns(s: Saturn, i: Instr)
    requires CoreOk(s.core) && |s.flow.stack| <= NR_RSTK && InstrOk(i)
    ensures i.Return? ==>
              Exec(s, Opcode(i, 2)) == Saturn(s.core.(XM := if i.xm then 1 else s.core.XM,
                                                      CARRY := if i.carry.Some? then i.carry.value else s.core.CARRY),
                                              Back(s.flow))
    ensures i.ReturnInt? ==> Exec(s, Opcode(i, 2)) == Saturn(s.core, Rti(s.flow))
  {
    StackIs(s.flow, 0);
    hide CoreOk, Rti, PopTo, Back, Push, Holds, DataOk, CondOk, StoreRun, LoadDown;
  }

  /** RTNSXM, RTN, RTNSC, RTNCC and RTI, which a pending interrupt turns into the handler once more. */
  lemma Returns(s: Saturn, w: seq<int>)
    requires At(s, w) && Nibbles(w) && w[0] == 0
    ensures w[1] == 0 ==> Goes(s, s.core.(XM := 1), Back(s.flow))
    ensures w[1] == 1 ==> Goes(s, s.core, Back(s.flow))
    ensures w[1] == 2 ==> Goes(s, s.core.(CARRY := 1), Back(s.flow))
    ensures w[1] == 3 ==> Goes(s, s.core.(CARRY := 0), Back(s.flow))
    ensures w[1] == 15 ==> Goes(s, s.core, if s.flow.pending then s.flow.(pc := 0xf, enabled := false, pending := false)
                                           else Back(s.flow).(enabled := true, pending := false))
  {
    hide *;
    AtOk(s, w);
    AllNibbles(w);
    ReturnDecodes(w);
    StackBound(s);
    StackIs(s.flow, 0);
    if 0 <= w[1] <= 3 || w[1] == 15 {
      GoesOn(s, DecodeAt(w));
      ReturnRuns(s, DecodeAt(w).i);
    }
  }

  lemma PushRuns(s: Saturn)
    requires Ok(s) && CoreOk(s.core)
    ensures |s.core.C| == 16 && InstrOk(PushC) && InstrOk(PopC)
    ensures Exec(s, Opcode(PushC, 2)) ==
              Saturn(s.core, s.flow.(pc := s.flow.pc + 2, stack := Pushed(s.flow.stack, Value(s.core.C[..5], 16))))
    ensures var (st, a) := Pop(s.flow.stack);
            Exec(s, Opcode(PopC, 2)) ==
              Saturn(s.core.(C := Low(s.core.C, Split(a, 16, 5))), s.flow.(pc := s.flow.pc + 2, stack := st))
  {
    hide CoreOk, Value, Push, Pop, Exec, Low, Split, Pushed;
    StackBound(s);
    AfterPush(s);
    AfterPop(s);
    StackIs(s.flow, Value(s.core.C[..5], 16));
  }

  /** The low five nibbles of C hold a modulo 2^20, and the others are as they were. */
  ghost predicate AddressIn(c: Core, d: Core, x: char, a: int)
  {
    var r, r' := Get(c, RegNamed(x)), Get(d, RegNamed(x));
    d == Set(c, RegNamed(x), r') && |r| == |r'| == 16 && Value(r'[..5], 16) == a % 0x100000 && r'[5..] == r[5..]
  }

  lemma AddressInIs(c: Core, x: char, a: int)
    requires |Get(c, RegNamed(x))| == 16
    ensures AddressIn(c, Set(c, RegNamed(x), Low(Get(c, RegNamed(x)), Split(a, 16, 5))), x, a)
  {
    var r := RegNamed(x);
    SplitModulo(a, 5);
    Pow16(5);
    LowParts(Get(c, r), Split(a, 16, 5));
    SetIs(c, r, Low(Get(c, r), Split(a, 16, 5)));
    hide Value, Split, Low, Pow, Get, Set;
  }

  /** RSTK=C and C=RSTK. */
  lemma StackMoves(s: Saturn, w: seq<int>)
    requires At(s, w) && Nibbles(w) && w[0] == 0
    ensures |s.core.C| == 16
    ensures w[1] == 6 ==>
              Goes(s, s.core, s.flow.(pc := s.flow.pc + 2, stack := Pushed(s.flow.stack, Value(s.core.C[..5], 16))))
    ensures w[1] == 7 ==>
              Goes(s, Next(s), Back(s.flow).(pc := s.flow.pc + 2)) && AddressIn(s.core, Next(s), 'C', Back(s.flow).pc)
  {
    hide *;
    AtOk(s, w);
    AllNibbles(w);
    ReturnDecodes(w);
    PushRuns(s);
    PopIs(s);
    if w[1] == 6 { GoesOn(s, Opcode(PushC, 2)); }
    if w[1] == 7 {
      GoesOn(s, Opcode(PopC, 2));
      NextIs(s, Exec(s, Opcode(PopC, 2)).core, Exec(s, Opcode(PopC, 2)).flow);
    }
  }

  lemma NextIs(s: Saturn, c: Core, f: Flow)
    requires Goes(s, c, f)
    ensures Next(s) == c
  {
    hide CoreOk, StepOf;
  }

  lemma PopIs(s: Saturn)
    requires Ok(s) && |s.core.C| == 16
    ensures var (st, a) := Pop(s.flow.stack);
            s.flow.(pc := s.flow.pc + 2, stack := st) == Back(s.flow).(pc := s.flow.pc + 2) &&
            a == Back(s.flow).pc && AddressIn(s.core, s.core.(C := Low(s.core.C, Split(a, 16, 5))), 'C', a)
  {
    hide CoreOk, Low, Split, AddressIn;
    var a := Pop(s.flow.stack).1;
    AddressInIs(s.core, 'C', a);
    SetIsC(s.core, Low(s.core.C, Split(a, 16, 5)));
  }

  // ------------------------------------------------------------- jumps and calls

  lemma CarryDecodes(w: seq<int>)
    requires Nibbles(w)
    ensures |w| == 21 && Below(w, 16)
    ensures w[0] == 4 ==> DecodeAt(w) == Opcode(if Imm(w, 1, 2) == 2 then Nop else JumpCarry(1, Imm(w, 1, 2)), 3)
    ensures w[0] == 5 ==> DecodeAt(w) == Opcode(JumpCarry(0, Imm(w, 1, 2)), 3)
  {
    hide Group0, Group1, Group6, Group8, Imm, EqualGroup, OrderGroup;
    hide AddGroup, SubGroup, CopyGroup, ShiftGroup, Signed;
  }

  lemma CarryRuns(s: Saturn, w: seq<int>, on: int)
    requires CoreOk(s.core) && |w| == 21 && Below(w, 16) && 0 <= on <= 1
    ensures Exec(s, Opcode(JumpCarry(on, Imm(w, 1, 2)), 3)) ==
              Saturn(s.core, if s.core.CARRY == on then YesFlow(s.flow, w, 1) else s.flow.(pc := s.flow.pc + 3))
    ensures Exec(s, Opcode(Nop, 3)) == Saturn(s.core, s.flow.(pc := s.flow.pc + 3))
  {
    BranchIs(s.flow, w, 1);
    hide CoreOk, Holds, Branch, YesFlow, Imm, Below;
  }

  /** GOC and RTNC, GONC and RTNNC; a GOC by two is the three-nibble NOP. */
  lemma CarryJumps(s: Saturn, w: seq<int>)
    requires At(s, w) && Nibbles(w) && (w[0] == 4 || w[0] == 5)
    ensures |w| == 21
    ensures var jumps := s.core.CARRY == 5 - w[0] && !(w[0] == 4 && Value(w[1..3], 16) == 2);
            Goes(s, s.core, if jumps then YesFlow(s.flow, w, 1) else s.flow.(pc := s.flow.pc + 3))
  {
    hide *;
    AtOk(s, w);
    CarryDecodes(w);
    ImmIs(w, 1, 2);
    CarryRuns(s, w, 5 - w[0]);
    GoesOn(s, DecodeAt(w));
  }

  lemma ImmIs(w: seq<int>, at: nat, n: nat)
    requires at + n <= |w|
    ensures Imm(w, at, n) == Value(w[at..at + n], 16)
  {
    hide Value;
  }

  lemma JumpDecodes(w: seq<int>)
    requires Nibbles(w)
    ensures |w| == 21 && Below(w, 16)
    ensures w[0] == 6 ==>
              DecodeAt(w) == if Imm(w, 1, 3) == 3 then Opcode(Nop, 4)
                             else if Imm(w, 1, 3) == 4 then Opcode(if w[4] == 0 then Nop else Trap, 5)
                             else Opcode(Jump(Displacement(w, 1, 3) + 1), 4)
    ensures w[0] == 7 ==> DecodeAt(w) == Opcode(Instr.Call(Displacement(w, 1, 3) + 4), 4)
  {
    SignedIs(w, 1, 3);
    hide Group0, Group1, Group8, Imm, EqualGroup, OrderGroup, Displacement;
    hide AddGroup, SubGroup, CopyGroup, ShiftGroup, Signed;
  }

  lemma LongDecodes(w: seq<int>)
    requires Nibbles(w) && w[0] == 8
    ensures |w| == 21 && Below(w, 16)
    ensures w[1] == 12 ==> DecodeAt(w) == Opcode(Jump(Displacement(w, 2, 4) + 2), 6)
    ensures w[1] == 13 ==> DecodeAt(w) == Opcode(JumpTo(Imm(w, 2, 5)), 7)
    ensures w[1] == 14 ==> DecodeAt(w) == Opcode(Instr.Call(Displacement(w, 2, 4) + 6), 6)
    ensures w[1] == 15 ==> DecodeAt(w) == Opcode(CallTo(Imm(w, 2, 5)), 7)
  {
    InGroup8(w);
    SignedIs(w, 2, 4);
    hide DecodeAt, Group80, Group81, Imm, EqualGroup, OrderGroup, Signed, Displacement;
  }

  lemma JumpRuns(s: Saturn, x: int, len: nat)
    requires CoreOk(s.core) && |s.flow.stack| <= NR_RSTK
    ensures Exec(s, Opcode(Jump(x), len)) == Saturn(s.core, s.flow.(pc := (s.flow.pc + x) % 0x100000))
    ensures Exec(s, Opcode(JumpTo(x), len)) == Saturn(s.core, s.flow.(pc := x))
    ensures Exec(s, Opcode(Instr.Call(x), len)) ==
              Saturn(s.core, Flow((s.flow.pc + x) % 0x100000, Pushed(s.flow.stack, s.flow.pc + len),
                                  s.flow.enabled, s.flow.pending))
    ensures Exec(s, Opcode(CallTo(x), len)) ==
              Saturn(s.core, Flow(x, Pushed(s.flow.stack, s.flow.pc + len), s.flow.enabled, s.flow.pending))
    ensures Exec(s, Opcode(Nop, len)) == Saturn(s.core, s.flow.(pc := s.flow.pc + len))
    ensures Exec(s, Opcode(Trap, len)) == Saturn(s.core, s.flow.(pc := s.flow.pc + len))
  {
    StackIs(s.flow, s.flow.pc + len);
    hide CoreOk, Push, Pushed;
  }

  /** The flow after a jump of these nibbles, from the listing's point of view. */
  function JumpFlow(f: Flow, w: seq<int>): Flow
    requires |w| == 21
  {
    if w[0] == 6 then
      if Value(w[1..4], 16) == 3 then f.(pc := f.pc + 4)
      else if Value(w[1..4], 16) == 4 then f.(pc := f.pc + 5)
      else f.(pc := (f.pc + 1 + Displacement(w, 1, 3)) % 0x100000)
    else if w[0] == 7 then f.(pc := (f.pc + 4 + Displacement(w, 1, 3)) % 0x100000, stack := Pushed(f.stack, f.pc + 4))
    else if w[1] == 12 then f.(pc := (f.pc + 2 + Displacement(w, 2, 4)) % 0x100000)
    else if w[1] == 13 then f.(pc := Value(w[2..7], 16))
    else if w[1] == 14 then f.(pc := (f.pc + 6 + Displacement(w, 2, 4)) % 0x100000, stack := Pushed(f.stack, f.pc + 6))
    else f.(pc := Value(w[2..7], 16), stack := Pushed(f.stack, f.pc + 7))
  }

  lemma JumpFlowIs(s: Saturn, w: seq<int>)
    requires Nibbles(w) && CoreOk(s.core) && |s.flow.stack| <= NR_RSTK && InstrOk(DecodeAt(w).i)
    requires w[0] == 6 || w[0] == 7 || (w[0] == 8 && 12 <= w[1])
    ensures |w| == 21 && Exec(s, DecodeAt(w)) == Saturn(s.core, JumpFlow(s.flow, w))
    ensures !DecodeAt(w).i.Illegal?
    ensures DecodeAt(w).i.Trap? <==> w[0] == 6 && Value(w[1..4], 16) == 4 && w[4] != 0
  {
    hide DecodeAt, Nibbles, CoreOk, Exec, Imm, Displacement, Value, Pushed, Below, InstrOk;
    AllNibbles(w);
    JumpDecodes(w);
    ImmIs(w, 1, 3);
    var op := DecodeAt(w);
    if w[0] == 8 {
      LongFlowIs(s, w);
    } else {
      JumpRuns(s, if op.i.Jump? || op.i.Call? then op.i.disp else 0, op.len);
    }
  }

  lemma LongFlowIs(s: Saturn, w: seq<int>)
    requires Nibbles(w) && CoreOk(s.core) && |s.flow.stack| <= NR_RSTK && InstrOk(DecodeAt(w).i)
    requires w[0] == 8 && 12 <= w[1]
    ensures |w| == 21 && Exec(s, DecodeAt(w)) == Saturn(s.core, JumpFlow(s.flow, w))
    ensures !DecodeAt(w).i.Illegal? && !DecodeAt(w).i.Trap?
  {
    hide DecodeAt, Nibbles, CoreOk, Exec, Imm, Displacement, Value, Pushed, Below, InstrOk;
    AllNibbles(w);
    LongDecodes(w);
    ImmIs(w, 2, 5);
    var op := DecodeAt(w);
    JumpRuns(s, if op.i.Jump? || op.i.Call? then op.i.disp else op.i.addr, op.len);
  }

  /** GOTO, GOSUB, GOLONG, GOVLNG, GOSUBL and GOSBVL, with the two NOPs among the GOTOs, of which one can stop. */
  lemma Jumps(s: Saturn, w: seq<int>)
    requires At(s, w) && Nibbles(w) && (w[0] == 6 || w[0] == 7 || (w[0] == 8 && 12 <= w[1]))
    ensures |w| == 21 && Ok(s)
    ensures StepOf(s) == (Saturn(s.core, JumpFlow(s.flow, w)),
                          w[0] == 6 && Value(w[1..4], 16) == 4 && w[4] != 0)
  {
    hide *;
    AtOk(s, w);
    AllNibbles(w);
    StackBound(s);
    FetchedOk(s, DecodeAt(w));
    JumpFlowIs(s, w);
  }

  lemma FetchedOk(s: Saturn, op: Opcode)
    requires CoreOk(s.core) && Fetch(s) == op
    ensures InstrOk(op.i) && StepOf(s) == (Exec(s, op), op.i.Illegal? || op.i.Trap?)
  {
    hide CoreOk, Fetch, Exec;
  }

  // ------------------------------------------------------------- the program counter as a register

  predicate MovesPc(w: seq<int>)
    requires Nibbles(w)
  {
    w[0] == 8 && w[1] == 1 && w[2] == 11 && 2 <= w[3] <= 7
  }

  lemma PcDecodes(w: seq<int>)
    requires Nibbles(w) && MovesPc(w)
    ensures var r := RegNamed(if w[3] % 2 == 0 then 'A' else 'C');
            2 <= w[3] <= 7 &&
            DecodeAt(w) == Opcode(if w[3] < 4 then JumpReg(r) else if w[3] < 6 then RegFromPc(r) else ExchPc(r), 4)
  {
    InGroup8(w);
    hide DecodeAt, ScratchGroup;
  }

  lemma JumpRegRuns(s: Saturn, r: Reg)
    requires CoreOk(s.core)
    ensures |Get(s.core, r)| == 16
    ensures Exec(s, Opcode(JumpReg(r), 4)) == Saturn(s.core, s.flow.(pc := Value(Get(s.core, r)[..5], 16)))
  {
    assert |Get(s.core, r)| == 16;
    hide CoreOk, Get, Value;
  }

  /** PC=A, A=PC, APCEX and the same of C: the register gets the address of the next instruction. */
  lemma PcMoves(s: Saturn, w: seq<int>)
    requires At(s, w) && Nibbles(w) && MovesPc(w)
    ensures var x := if w[3] % 2 == 0 then 'A' else 'C';
            var r := Get(s.core, RegNamed(x));
            |r| == 16 &&
            Goes(s, Next(s), s.flow.(pc := if w[3] < 4 || w[3] >= 6 then Value(r[..5], 16) else s.flow.pc + 4)) &&
            if w[3] < 4 then Next(s) == s.core else AddressIn(s.core, Next(s), x, s.flow.pc + 4)
  {
    hide *;
    AtOk(s, w);
    AllNibbles(w);
    PcDecodes(w);
    var x := if w[3] % 2 == 0 then 'A' else 'C';
    GoesOn(s, DecodeAt(w));
    NextIs(s, Exec(s, DecodeAt(w)).core, Exec(s, DecodeAt(w)).flow);
    JumpRegRuns(s, RegNamed(x));
    PcMovesRun(s, RegNamed(x));
    AddressInIs(s.core, x, s.flow.pc + 4);
  }

  lemma PcMovesRun(s: Saturn, r: Reg)
    requires CoreOk(s.core)
    ensures |Get(s.core, r)| == 16
    ensures var d := Set(s.core, r, Low(Get(s.core, r), Split(s.flow.pc + 4, 16, 5)));
            Exec(s, Opcode(RegFromPc(r), 4)) == Saturn(d, s.flow.(pc := s.flow.pc + 4)) &&
            Exec(s, Opcode(ExchPc(r), 4)) == Saturn(d, s.flow.(pc := Value(Get(s.core, r)[..5], 16)))
  {
    assert s == Saturn(s.core, s.flow);
    PcMovesAre(s.core, s.flow, r, 4);
    hide CoreOk, Exec, Set, Get, Low, Split, Value;
  }

  lemma IndirectDecodes(w: seq<int>)
    requires Nibbles(w) && w[0] == 8 && w[1] == 0 && w[2] == 8
    ensures w[3] == 12 ==> DecodeAt(w) == Opcode(JumpInd(RegNamed('A')), 4)
    ensures w[3] == 14 ==> DecodeAt(w) == Opcode(JumpInd(RegNamed('C')), 4)
    ensures w[3] == 1 ==> DecodeAt(w) == Opcode(ResetInt, 5)
  {
    InGroup808(w);
    hide DecodeAt, Imm;
  }

  lemma IndirectRuns(s: Saturn, r: Reg)
    requires CoreOk(s.core)
    ensures |Get(s.core, r)| == 16 && MemOk(s.core.mem)
    ensures var (m, v) := LoadDown(s.core.mem, Value(Get(s.core, r)[..5], 16), 5);
            Exec(s, Opcode(JumpInd(r), 4)) == Saturn(s.core.(mem := m), s.flow.(pc := Value(v, 16)))
  {
    hide CoreOk, Get, Value, LoadDown, MemOk, Holds, StoreRun, DataStep, Low, Set;
    Laws.RegOf(s.core, r);
    CoreMem(s.core);
    IndirectAt(s.core, r);
  }

  lemma IndirectAt(c: Core, r: Reg)
    requires |Get(c, r)| == 16
    ensures Addr(Get(c, r)) == Value(Get(c, r)[..5], 16)
  {
    hide Value, Get;
  }

  /** PC=(A) and PC=(C): to the address that the five nibbles there hold. */
  lemma IndirectJumps(s: Saturn, w: seq<int>)
    requires At(s, w) && Nibbles(w) && w[0] == 8 && w[1] == 0 && w[2] == 8 && (w[3] == 12 || w[3] == 14)
    ensures var r := Get(s.core, RegNamed(if w[3] == 12 then 'A' else 'C'));
            |r| == 16 && MemOk(s.core.mem) &&
            var (m, v) := LoadDown(s.core.mem, Value(r[..5], 16), 5);
            Goes(s, s.core.(mem := m), s.flow.(pc := Value(v, 16)))
  {
    hide *;
    AtOk(s, w);
    AllNibbles(w);
    IndirectDecodes(w);
    var x := if w[3] == 12 then 'A' else 'C';
    GoesOn(s, DecodeAt(w));
    IndirectRuns(s, RegNamed(x));
  }

  lemma ResetRuns(s: Saturn)
    requires CoreOk(s.core) && |s.flow.stack| <= NR_RSTK
    ensures |s.core.rows| == 9
    ensures var f := s.flow.(pc := s.flow.pc + 5);
            var down := exists i :: 0 <= i < 9 && s.core.rows[i] != 0;
            Exec(s, Opcode(ResetInt, 5)) ==
              Saturn(s.core.(kbdIen := true),
                     if !down then f
                     else if f.enabled then Flow(0xf, Pushed(f.stack, f.pc), false, f.pending)
                     else f.(pending := true))
  {
    assert |s.core.rows| == 9;
    StackIs(s.flow, s.flow.pc + 5);
    hide CoreOk, Push, Pushed;
  }

  /** RSI: with a key down the interrupt is taken at once, or made pending. */
  lemma ResetsInterrupts(s: Saturn, w: seq<int>)
    requires At(s, w) && Nibbles(w) && w[0] == 8 && w[1] == 0 && w[2] == 8 && w[3] == 1
    ensures |s.core.rows| == 9
    ensures var f := s.flow.(pc := s.flow.pc + 5);
            var down := exists i :: 0 <= i < 9 && s.core.rows[i] != 0;
            Goes(s, s.core.(kbdIen := true),
                 if !down then f
                 else if f.enabled then Flow(0xf, Pushed(f.stack, f.pc), false, f.pending)
                 else f.(pending := true))
  {
    hide *;
    AtOk(s, w);
    IndirectDecodes(w);
    StackBound(s);
    GoesOn(s, DecodeAt(w));
    ResetRuns(s);
  }

  // ------------------------------------------------------------- tests of bits

  predicate TestsBits(w: seq<int>)
    requires Nibbles(w)
  {
    w[0] == 8 && ((w[1] == 3) || (6 <= w[1] <= 9) ||
                  (w[1] == 0 && w[2] == 8 && (6 <= w[3] <= 7 || 10 <= w[3] <= 11)))
  }

  /** ?HST=0, ?ST=b, ?P#n, ?P=n, ?ABIT=b and ?CBIT=b. */
  ghost predicate BitAnswer(w: seq<int>, c: Core)
    requires Nibbles(w)
  {
    var n := w[2];
    0 <= n < 16 && 0 <= w[4] < 16 && |c.ST| == 16 &&
    if w[1] == 3 then
      (n % 2 == 1 ==> c.XM == 0) && (n / 2 % 2 == 1 ==> c.SB == 0) && (n / 4 % 2 == 1 ==> c.SR == 0) &&
      (n / 8 % 2 == 1 ==> c.MP == 0)
    else if w[1] == 6 then c.ST[n] == 0
    else if w[1] == 7 then c.ST[n] == 1
    else if w[1] == 8 then c.P != n
    else if w[1] == 9 then c.P == n
    else StatusBit(if w[3] < 8 then c.A else c.C, w[4]) == w[3] % 2
  }

  lemma BitTestDecodes(w: seq<int>)
    requires Nibbles(w) && TestsBits(w)
    ensures |w| == 21 && 0 <= w[2] < 16 && 0 <= w[4] < 16 && DecodeAt(w).i.Test?
    ensures var at := if w[1] == 0 then 5 else 3;
            var t := DecodeAt(w).i.c;
            DecodeAt(w) == Opcode(Test(t, Imm(w, at, 2)), at + 2) &&
            t == if w[1] == 3 then StatusClear(w[2])
                 else if w[1] == 6 then StIs(w[2], 0)
                 else if w[1] == 7 then StIs(w[2], 1)
                 else if w[1] == 8 then PIs(w[2], false)
                 else if w[1] == 9 then PIs(w[2], true)
                 else BitIs(if w[3] < 8 then RA else RC, w[4], w[3] % 2)
  {
    InGroup8(w);
    if w[1] == 0 { InGroup808(w); }
    hide DecodeAt, Group80, Group81, Imm, EqualGroup, OrderGroup, Signed;
  }

  lemma BitTestMeans(c: Core, w: seq<int>, t: Cond)
    requires CoreOk(c) && Nibbles(w) && TestsBits(w) && 0 <= w[2] < 16 && 0 <= w[4] < 16
    requires t == if w[1] == 3 then StatusClear(w[2])
                  else if w[1] == 6 then StIs(w[2], 0)
                  else if w[1] == 7 then StIs(w[2], 1)
                  else if w[1] == 8 then PIs(w[2], false)
                  else if w[1] == 9 then PIs(w[2], true)
                  else BitIs(if w[3] < 8 then RA else RC, w[4], w[3] % 2)
    ensures CondOk(t) && (Holds(c, t) <==> BitAnswer(w, c))
  {
    hide MemOk, Below, Compare, FieldOf, Zeros;
    LengthsOf(c);
  }

  /** Every test of single bits answers as listed, and goes on or jumps accordingly. */
  lemma BitQuestionsAnswered(s: Saturn, w: seq<int>)
    requires At(s, w) && Nibbles(w) && TestsBits(w)
    ensures |w| == 21
    ensures var at := if w[1] == 0 then 5 else 3;
            if BitAnswer(w, s.core) then Goes(s, s.core.(CARRY := 1), YesFlow(s.flow, w, at))
            else Goes(s, s.core.(CARRY := 0), s.flow.(pc := s.flow.pc + at + 2))
  {
    hide *;
    AtOk(s, w);
    BitTestDecodes(w);
    BitTestMeans(s.core, w, DecodeAt(w).i.c);
    var at := if w[1] == 0 then 5 else 3;
    TestGoes(s, w, DecodeAt(w).i.c, at);
  }

  lemma TestGoes(s: Saturn, w: seq<int>, t: Cond, at: nat)
    requires Ok(s) && CoreOk(s.core) && Nibbles(w) && at + 2 <= |w| == 21 && CondOk(t)
    requires Fetch(s) == Opcode(Test(t, Imm(w, at, 2)), at + 2)
    ensures if Holds(s.core, t) then Goes(s, s.core.(CARRY := 1), YesFlow(s.flow, w, at))
            else Goes(s, s.core.(CARRY := 0), s.flow.(pc := s.flow.pc + at + 2))
  {
    FetchedTest(s, w, t, at);
    hide CoreOk, Fetch, StepOf, Holds, YesFlow, CondOk, Imm;
  }

  // ------------------------------------------------------------- nothing is missing

  /** The patterns whose effect is stated: in `Listing`, in `Manual` and `Moves`, and here. */
  predicate Described(w: seq<int>)
    requires Nibbles(w)
  {
    Listed(w) || Asks(w) || 2 <= w[0] <= 7 || (w[0] == 0 && w[1] != 14) ||
    Moves.UsesScratch(w) || Moves.Transfers(w) || MovesPointer(w) || LoadsPointer(w) || (w[0] == 1 && w[1] == 3) ||
    Moves.Rotates(w) || Moves.Halves(w) || (w[0] == 8 && w[1] == 1 && w[2] == 8) || MovesPc(w) ||
    TestsBits(w) || WritesBit(w) || (w[0] == 8 && (w[1] == 2 || 4 <= w[1] <= 5 || 12 <= w[1])) ||
    (w[0] == 8 && w[1] == 0 && (w[2] != 8 || w[3] <= 3 || 12 <= w[3]))
  }

  /** Every pattern that means anything is described, and no other. */
  lemma AllDescribed(w: seq<int>)
    requires Nibbles(w)
    ensures Described(w) <==> DecodeAt(w).i != Illegal
  {
    AllNibbles(w);
    IllegalExactly(w);
    hide DecodeAt, Nibbles;
  }
}
