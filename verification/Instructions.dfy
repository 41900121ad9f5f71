/**
 The instruction set: what a window of nibbles starting at the program counter means, and
 how many nibbles the instruction takes.
 */
module Instructions {
  import opened Wrappers
  import opened Digits
  import opened Fields

  /** The longest instruction, LA with sixteen digits. */
  const WINDOW := 21

  datatype Reg = RA | RB | RC | RD

  datatype Cond =
    | StatusClear(mask: nat)                       // ?MP/SB/SR/XM=0
    | StIs(n: nat, val: int)
    | PIs(n: nat, eq: bool)
    | BitIs(r: Reg, n: nat, val: int)
    | Equal(a: Reg, b: Reg, f: nat, eq: bool)
    | Zero(a: Reg, f: nat, eq: bool)
    | Order(a: Reg, b: Reg, f: nat, rel: nat)      // 0 >, 1 <, 2 >=, 3 <=

  /** Instructions that do not involve the program counter or the return stack. */
  datatype Data =
    | SetMode(base: nat)
    | ClearSt | StToC | CToSt | SwapSt
    | StepP(up: bool)
    | SetP(n: nat)
    | Logic(or: bool, dst: Reg, src: Reg, f: nat)
    | Add(dst: Reg, src: Reg, f: nat)
    | Sub(dst: Reg, a: Reg, b: Reg, f: nat)
    | Inc(dst: Reg, f: nat) | Dec(dst: Reg, f: nat)
    | AddCon(dst: Reg, f: nat, con: nat) | SubCon(dst: Reg, f: nat, con: nat)
    | Clear(dst: Reg, f: nat)
    | Copy(dst: Reg, src: Reg, f: nat)
    | Exchange(a: Reg, b: Reg, f: nat)
    | Shl(dst: Reg, f: nat, circ: bool) | Shr(dst: Reg, f: nat, circ: bool) | ShrBit(dst: Reg, f: nat)
    | Neg(dst: Reg, f: nat) | Not(dst: Reg, f: nat)
    | ToScratch(k: nat, src: Reg, f: nat) | FromScratch(dst: Reg, k: nat, f: nat)
    | ExchScratch(dst: Reg, k: nat, f: nat)
    | SetD(d: nat, src: Reg, n: nat) | ExchD(r: Reg, d: nat, n: nat)
    | AddD(d: nat, step: int) | LoadD(d: nat, digits: seq<int>)
    | LoadReg(dst: Reg, digits: seq<int>)
    | Recall(dst: Reg, d: nat, f: nat) | RecallN(dst: Reg, d: nat, n: nat)
    | Out(f: nat) | In(dst: Reg)
    | Uncnfg | Config | Identify | ResetBus
    | Shutdn | IntOn | IntOff | Bus
    | SetBit(dst: Reg, n: nat, bit: int)
    | CPlusP | CFromP(n: nat) | PFromC(n: nat) | SwapPC(n: nat) | ServiceRequest
    | ClearHst(mask: nat)
    | SetSt(n: nat, bit: int)

  datatype Instr =
    | Illegal
    | Trap                                           // NOP5 with a non-zero fifth nibble
    | Simple(data: Data)
    | Nop
    | Return(xm: bool, carry: Option<int>)
    | ReturnInt
    | PushC | PopC
    | Store(d: nat, src: Reg, f: nat) | StoreN(d: nat, src: Reg, n: nat)
    | Jump(disp: int)                                // relative to the first nibble
    | JumpTo(addr: int)
    | Call(disp: int) | CallTo(addr: int)
    | JumpCarry(on: int, off: int)                   // GOC, GONC; off == 0 returns
    | Test(c: Cond, off: int)                        // a jump if the test holds; off == 0 returns
    | JumpInd(r: Reg)                                // PC=(A)
    | JumpReg(r: Reg) | RegFromPc(r: Reg) | ExchPc(r: Reg)
    | ResetInt

  /** An instruction and its length in nibbles. */
  datatype Opcode = Opcode(i: Instr, len: nat)

  ghost predicate Nibbles(w: seq<int>)
  {
    |w| == WINDOW && Below(w, 16)
  }

  // ---------------------------------------------------------------- operand tables

  function RegOf(k: nat): Reg
  {
    if k % 4 == 0 then RA else if k % 4 == 1 then RB else if k % 4 == 2 then RC else RD
  }

  /** The eight register pairs of the two-operand groups. */
  function Pair(k: nat): (Reg, Reg)
  {
    match k
    case 0 => (RA, RB)
    case 1 => (RB, RC)
    case 2 => (RC, RA)
    case 3 => (RD, RC)
    case 4 => (RB, RA)
    case 5 => (RC, RB)
    case 6 => (RA, RC)
    case _ => (RC, RD)
  }

  /** The number in a run of the window. */
  function Imm(w: seq<int>, at: nat, n: nat): int
    requires at + n <= |w|
  {
    Value(w[at..at + n], 16)
  }

  /** An n-nibble displacement in two's complement. */
  function Signed(v: int, n: nat): int
  {
    if 2 * v >= Pow(16, n) then v - Pow(16, n) else v
  }

  function Inline(d: Data, len: nat): Opcode { Opcode(Simple(d), len) }

  // ---------------------------------------------------------------- the groups

  function AddGroup(k: nat, f: nat): Data
  {
    if k < 4 then var (d, s) := Pair(k); Add(d, s, f)
    else if k < 8 then Add(RegOf(k), RegOf(k), f)
    else if k < 12 then var (d, s) := Pair(k - 4); Add(d, s, f)
    else Dec(RegOf(k), f)
  }

  function LogicGroup(k: nat, f: nat): Data
  {
    var (d, s) := Pair(k % 8);
    Logic(k >= 8, d, s, f)
  }

  function CopyGroup(k: nat, f: nat): Data
  {
    if k < 4 then Clear(RegOf(k), f)
    else if k < 12 then var (d, s) := Pair(k - 4); Copy(d, s, f)
    else if k == 12 then Exchange(RA, RB, f)
    else if k == 13 then Exchange(RB, RC, f)
    else if k == 14 then Exchange(RA, RC, f)
    else Exchange(RC, RD, f)
  }

  function SubGroup(k: nat, f: nat): Data
  {
    if k < 4 then var (d, s) := Pair(k); Sub(d, d, s, f)
    else if k < 8 then Inc(RegOf(k), f)
    else if k < 12 then var (d, s) := Pair(k - 4); Sub(d, d, s, f)
    else var (d, s) := Pair(k - 12); Sub(d, s, d, f)
  }

  function ShiftGroup(k: nat, f: nat): Data
  {
    if k < 4 then Shl(RegOf(k), f, false)
    else if k < 8 then Shr(RegOf(k), f, false)
    else if k < 12 then Neg(RegOf(k), f)
    else Not(RegOf(k), f)
  }

  function EqualGroup(k: nat, f: nat): Cond
  {
    if k >= 8 then Zero(RegOf(k), f, k < 12)
    else match k % 4
         case 0 => Equal(RA, RB, f, k < 4)
         case 1 => Equal(RB, RC, f, k < 4)
         case 2 => Equal(RA, RC, f, k < 4)
         case _ => Equal(RC, RD, f, k < 4)
  }

  function OrderGroup(k: nat, f: nat): Cond
  {
    var (a, b) := Pair(k % 4);
    Order(a, b, f, k / 4)
  }

  function Scratch(k: nat): nat
  {
    if k % 8 > 4 then k % 8 - 4 else k % 8
  }

  function AorC(k: nat): Reg { if k < 8 then RA else RC }

  function ScratchGroup(kind: nat, k: nat, f: nat): Data
  {
    if kind == 0 then ToScratch(Scratch(k), AorC(k), f)
    else if kind == 1 then FromScratch(AorC(k), Scratch(k), f)
    else ExchScratch(AorC(k), Scratch(k), f)
  }

  /** D0 and D1 against A and C, whole or short. */
  function PointerGroup(k: nat): Data
  {
    var r := if k / 4 % 2 == 0 then RA else RC;
    var n := if k < 8 then 5 else 4;
    if k / 2 % 2 == 0 then SetD(k % 2, r, n) else ExchD(r, k % 2, n)
  }

  function TransferGroup(k: nat, f: nat): Instr
  {
    var r := if k / 4 % 2 == 0 then RA else RC;
    if k / 2 % 2 == 0 then Store(k % 2, r, f) else Simple(Recall(r, k % 2, f))
  }

  function TransferNGroup(k: nat, n: nat): Instr
  {
    var r := if k / 4 % 2 == 0 then RA else RC;
    if k / 2 % 2 == 0 then StoreN(k % 2, r, n) else Simple(RecallN(r, k % 2, n))
  }

  function Group0(w: seq<int>): Opcode
    requires Nibbles(w)
  {
    match w[1]
    case 0 => Opcode(Return(true, None), 2)
    case 1 => Opcode(Return(false, None), 2)
    case 2 => Opcode(Return(false, Some(1)), 2)
    case 3 => Opcode(Return(false, Some(0)), 2)
    case 4 => Inline(SetMode(HEX), 2)
    case 5 => Inline(SetMode(DEC), 2)
    case 6 => Opcode(PushC, 2)
    case 7 => Opcode(PopC, 2)
    case 8 => Inline(ClearSt, 2)
    case 9 => Inline(StToC, 2)
    case 10 => Inline(CToSt, 2)
    case 11 => Inline(SwapSt, 2)
    case 12 => Inline(StepP(true), 2)
    case 13 => Inline(StepP(false), 2)
    case 14 => Inline(LogicGroup(w[3], w[2]), 4)
    case _ => Opcode(ReturnInt, 2)
  }

  function Group1(w: seq<int>): Opcode
    requires Nibbles(w)
  {
    match w[1]
    case 0 => Inline(ScratchGroup(0, w[2], W_FIELD), 3)
    case 1 => Inline(ScratchGroup(1, w[2], W_FIELD), 3)
    case 2 => Inline(ScratchGroup(2, w[2], W_FIELD), 3)
    case 3 => Inline(PointerGroup(w[2]), 3)
    case 4 => Opcode(TransferGroup(w[2], if w[2] < 8 then A_FIELD else 6), 3)
    case 5 => Opcode(if w[2] >= 8 then TransferNGroup(w[2], w[3] + 1) else TransferGroup(w[2], w[3]), 4)
    case 6 => Inline(AddD(0, w[2] + 1), 3)
    case 7 => Inline(AddD(1, w[2] + 1), 3)
    case 8 => Inline(AddD(0, -(w[2] + 1)), 3)
    case 9 => Inline(LoadD(0, w[2..4]), 4)
    case 10 => Inline(LoadD(0, w[2..6]), 6)
    case 11 => Inline(LoadD(0, w[2..7]), 7)
    case 12 => Inline(AddD(1, -(w[2] + 1)), 3)
    case 13 => Inline(LoadD(1, w[2..4]), 4)
    case 14 => Inline(LoadD(1, w[2..6]), 6)
    case _ => Inline(LoadD(1, w[2..7]), 7)
  }

  function Group808(w: seq<int>): Opcode
    requires Nibbles(w)
  {
    match w[3]
    case 0 => Inline(IntOn, 4)
    case 1 => Opcode(ResetInt, 5)
    case 2 => Inline(LoadReg(RA, w[5..6 + w[4]]), 6 + w[4])
    case 3 => Inline(Bus, 4)
    case 4 => Inline(SetBit(RA, w[4], 0), 5)
    case 5 => Inline(SetBit(RA, w[4], 1), 5)
    case 6 => Opcode(Test(BitIs(RA, w[4], 0), Imm(w, 5, 2)), 7)
    case 7 => Opcode(Test(BitIs(RA, w[4], 1), Imm(w, 5, 2)), 7)
    case 8 => Inline(SetBit(RC, w[4], 0), 5)
    case 9 => Inline(SetBit(RC, w[4], 1), 5)
    case 10 => Opcode(Test(BitIs(RC, w[4], 0), Imm(w, 5, 2)), 7)
    case 11 => Opcode(Test(BitIs(RC, w[4], 1), Imm(w, 5, 2)), 7)
    case 12 => Opcode(JumpInd(RA), 4)
    case 13 => Inline(Bus, 4)
    case 14 => Opcode(JumpInd(RC), 4)
    case _ => Inline(IntOff, 4)
  }

  function Group80(w: seq<int>): Opcode
    requires Nibbles(w)
  {
    match w[2]
    case 0 => Inline(Out(OUTS_FIELD), 3)
    case 1 => Inline(Out(OUT_FIELD), 3)
    case 2 => Inline(In(RA), 3)
    case 3 => Inline(In(RC), 3)
    case 4 => Inline(Uncnfg, 3)
    case 5 => Inline(Config, 3)
    case 6 => Inline(Identify, 3)
    case 7 => Inline(Shutdn, 3)
    case 8 => Group808(w)
    case 9 => Inline(CPlusP, 3)
    case 10 => Inline(ResetBus, 3)
    case 11 => Inline(Bus, 3)
    case 12 => Inline(CFromP(w[3]), 4)
    case 13 => Inline(PFromC(w[3]), 4)
    case 14 => Inline(ServiceRequest, 3)
    case _ => Inline(SwapPC(w[3]), 4)
  }

  function Group81(w: seq<int>): Opcode
    requires Nibbles(w)
  {
    if w[2] < 4 then Inline(Shl(RegOf(w[2]), W_FIELD, true), 3)
    else if w[2] < 8 then Inline(Shr(RegOf(w[2]), W_FIELD, true), 3)
    else if w[2] == 8 then
      Inline(if w[4] < 8 then AddCon(RegOf(w[4]), w[3], w[5] + 1) else SubCon(RegOf(w[4]), w[3], w[5] + 1), 6)
    else if w[2] == 9 then Inline(ShrBit(RegOf(w[4]), w[3]), 5)
    else if w[2] == 10 then
      if w[4] <= 2 then Inline(ScratchGroup(w[4], w[5], w[3]), 6) else Opcode(Illegal, 0)
    else if w[2] == 11 then
      match w[3]
      case 2 => Opcode(JumpReg(RA), 4)
      case 3 => Opcode(JumpReg(RC), 4)
      case 4 => Opcode(RegFromPc(RA), 4)
      case 5 => Opcode(RegFromPc(RC), 4)
      case 6 => Opcode(ExchPc(RA), 4)
      case 7 => Opcode(ExchPc(RC), 4)
      case _ => Opcode(Illegal, 0)
    else Inline(ShrBit(RegOf(w[2]), W_FIELD), 3)
  }

  function Group8(w: seq<int>): Opcode
    requires Nibbles(w)
  {
    match w[1]
    case 0 => Group80(w)
    case 1 => Group81(w)
    case 2 => Inline(ClearHst(w[2]), 3)
    case 3 => Opcode(Test(StatusClear(w[2]), Imm(w, 3, 2)), 5)
    case 4 => Inline(SetSt(w[2], 0), 3)
    case 5 => Inline(SetSt(w[2], 1), 3)
    case 6 => Opcode(Test(StIs(w[2], 0), Imm(w, 3, 2)), 5)
    case 7 => Opcode(Test(StIs(w[2], 1), Imm(w, 3, 2)), 5)
    case 8 => Opcode(Test(PIs(w[2], false), Imm(w, 3, 2)), 5)
    case 9 => Opcode(Test(PIs(w[2], true), Imm(w, 3, 2)), 5)
    case 10 => Opcode(Test(EqualGroup(w[2], A_FIELD), Imm(w, 3, 2)), 5)
    case 11 => Opcode(Test(OrderGroup(w[2], A_FIELD), Imm(w, 3, 2)), 5)
    case 12 => Opcode(Jump(Signed(Imm(w, 2, 4), 4) + 2), 6)
    case 13 => Opcode(JumpTo(Imm(w, 2, 5)), 7)
    case 14 => Opcode(Call(Signed(Imm(w, 2, 4), 4) + 6), 6)
    case _ => Opcode(CallTo(Imm(w, 2, 5)), 7)
  }

  function Group6(w: seq<int>): Opcode
    requires Nibbles(w)
  {
    var off := Imm(w, 1, 3);
    if off == 3 then Opcode(Nop, 4)
    else if off == 4 then Opcode(if w[4] == 0 then Nop else Trap, 5)
    else Opcode(Jump(Signed(off, 3) + 1), 4)
  }

  /** The instruction that a window of nibbles starts with. */
  function DecodeAt(w: seq<int>): Opcode
    requires Nibbles(w)
  {
    match w[0]
    case 0 => Group0(w)
    case 1 => Group1(w)
    case 2 => Inline(SetP(w[1]), 2)
    case 3 => Inline(LoadReg(RC, w[2..3 + w[1]]), 3 + w[1])
    case 4 => Opcode(if Imm(w, 1, 2) == 2 then Nop else JumpCarry(1, Imm(w, 1, 2)), 3)
    case 5 => Opcode(JumpCarry(0, Imm(w, 1, 2)), 3)
    case 6 => Group6(w)
    case 7 => Opcode(Call(Signed(Imm(w, 1, 3), 3) + 4), 4)
    case 8 => Group8(w)
    case 9 => Opcode(Test(if w[1] < 8 then EqualGroup(w[2], w[1]) else OrderGroup(w[2], w[1] % 8), Imm(w, 3, 2)), 5)
    case 10 => Inline(if w[1] < 8 then AddGroup(w[2], w[1]) else CopyGroup(w[2], w[1] % 8), 3)
    case 11 => Inline(if w[1] < 8 then SubGroup(w[2], w[1]) else ShiftGroup(w[2], w[1] % 8), 3)
    case 12 => Inline(AddGroup(w[1], A_FIELD), 2)
    case 13 => Inline(CopyGroup(w[1], A_FIELD), 2)
    case 14 => Inline(SubGroup(w[1], A_FIELD), 2)
    case _ => Inline(ShiftGroup(w[1], A_FIELD), 2)
  }

  /** Exactly two small families of nibble patterns have no meaning. */
  lemma IllegalExactly(w: seq<int>)
    requires Nibbles(w)
    ensures DecodeAt(w).i == Illegal <==>
            w[0] == 8 && w[1] == 1 && ((w[2] == 10 && w[4] > 2) || (w[2] == 11 && !(2 <= w[3] <= 7)))
  {
  }

  /** Every instruction moves on by at least two nibbles and fits the window. */
  lemma LengthBounds(w: seq<int>)
    requires Nibbles(w)
    ensures DecodeAt(w).i == Illegal || 2 <= DecodeAt(w).len <= WINDOW
  {
  }
}
