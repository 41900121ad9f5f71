/**
 The disassembler, a second and independent decoder of the same code: only the addresses it
 consumes and the branch targets it prints are kept.  It is proved to advance exactly as the
 processor does except on three families of instructions, and to print the addresses the
 processor goes to.
 */
module Disasm {
  import opened Wrappers
  import opened Digits
  import opened Fields
  import opened Memory
  import opened Interrupts
  import opened Instructions
  import opened Machine
  import opened Step

  datatype Mode = HpMnemonics | ClassMnemonics

  /** The address a branch, call or successful test goes to, if it names one. */
  function Target(op: Opcode, pc: int): Option<int>
  {
    match op.i
    case Jump(disp) => Some((pc + disp) % ADDR_SPACE)
    case Call(disp) => Some((pc + disp) % ADDR_SPACE)
    case JumpTo(a) => Some(a)
    case CallTo(a) => Some(a)
    case JumpCarry(on, off) =>
      if off == 0 || off == 2 then None else Some((pc + 1 + Signed(off, 2)) % ADDR_SPACE)
    case Test(_, off) => if off == 0 then None else Some((pc + op.len - 2 + Signed(off, 2)) % ADDR_SPACE)
    case _ => None
  }

  /** D0=D0+n, D1=D1+n, D0=D0-n and D1=D1-n; r=r SRB on a field; NOP5. */
  ghost predicate LosesNibble(w: seq<int>)
    requires Nibbles(w)
  {
    (w[0] == 1 && (w[1] == 6 || w[1] == 7 || w[1] == 8 || w[1] == 12)) ||
    (w[0] == 8 && w[1] == 1 && w[2] == 9) ||
    (w[0] == 6 && Imm(w, 1, 3) == 4)
  }

  ghost predicate Listed(w: seq<int>, base: int, next: int, target: Option<int>, op: Opcode)
    requires Nibbles(w)
  {
    op.i.Illegal? || (next == base + op.len - (if LosesNibble(w) then 1 else 0) && target == Target(op, base))
  }

  method ReadNibble(m: Mem, addr: int, ghost w: seq<int>, ghost base: int) returns (n: int)
    requires MemOk(m) && w == Window(m, base) && base <= addr < base + WINDOW
    ensures n == w[addr - base] && 0 <= n < 16
  {
    LoadAllAt(m, base, WINDOW, addr - base);
    hide MemOk, Load;
    n := Load(m, addr).1;
    assert n == w[addr - base];
  }

  /** n nibbles as a number, low nibble first, and the address after them. */
  method ReadInt(m: Mem, addr0: int, n: nat, ghost w: seq<int>, ghost base: int) returns (t: int, addr: int)
    requires MemOk(m) && w == Window(m, base) && base <= addr0 && addr0 + n <= base + WINDOW
    ensures t == Imm(w, addr0 - base, n) && addr == addr0 + n
  {
    hide MemOk, Window, Value, Pow;
    ghost var k := addr0 - base;
    t, addr := 0, addr0;
    var weight := 1;
    ValueNone(16);
    PowZero();
    assert w[k..k] == [];
    for i := 0 to n
      invariant addr == addr0 + i && t == Value(w[k..k + i], 16) && weight == Pow(16, i)
    {
      var nib := ReadNibble(m, addr, w, base);
      ValueSnoc(w[k..k + i], nib, 16);
      assert w[k..k + i] + [nib] == w[k..k + i + 1];
      PowNext(i);
      t := t + nib * weight;
      weight := weight * 16;
      addr := addr + 1;
    }
  }

  lemma PowZero()
    ensures Pow(16, 0) == 1
  {
  }

  lemma PowNext(i: nat)
    ensures Pow(16, i + 1) == Pow(16, i) * 16
  {
  }

  /** n digits of a constant are skipped over. */
  method AppendImmNibble(m: Mem, addr0: int, n: nat) returns (addr: int)
    requires MemOk(m)
    ensures addr == addr0 + n
  {
    addr := addr0;
    if n > 1 {
      for i := 0 to n
        invariant addr == addr0 + i
      {
        addr := addr + 1;
      }
    } else if n == 1 {
      addr := addr + 1;
    }
  }

  /** The address a relative branch goes to, as five digits show it. */
  method AppendRAddr(pc0: int, disp0: int, n: nat) returns (pc: int)
    requires 1 <= n <= 4 && 0 <= disp0 < Pow(16, n)
    ensures pc == (pc0 + Signed(disp0, n)) % ADDR_SPACE
  {
    var disp, full := disp0, 1;
    for i := 0 to n
      invariant full == Pow(16, i)
    {
      full := full * 16;
    }
    if 2 * disp >= full { disp := disp - full; }
    pc := (pc0 + disp) % 0x100000;
  }

  // --------------------------------------------------------------------- the switches

  /** The group of nibble 1; the address is that of the second nibble. */
  method Disasm1(m: Mem, addr0: int, mode: Mode, ghost w: seq<int>, ghost base: int) returns (addr: int)
    requires MemOk(m) && w == Window(m, base) && w[0] == 1 && addr0 == base + 1
    ensures Listed(w, base, addr, None, Group1(w))
  {
    hide MemOk, Window, Imm, Below, ScratchGroup, PointerGroup;
    addr := addr0;
    var n := ReadNibble(m, addr, w, base);
    addr := addr + 1;
    match n {
      case 0 => addr := addr + 1;
      case 1 => addr := addr + 1;
      case 2 => addr := addr + 1;
      case 3 => addr := addr + 1;
      case 4 => addr := addr + 1;
      case 5 =>
        var fn := ReadNibble(m, addr, w, base);
        addr := addr + 1;
        if mode.HpMnemonics? {
          n := ReadNibble(m, addr, w, base);
          addr := addr + 1;
        } else {
          n := ReadNibble(m, addr, w, base);
          addr := addr + 1;
        }
      // the operand is read through a pointer that is then advanced in place of the address
      case 6 => var fn := ReadNibble(m, addr, w, base);
      case 7 => var fn := ReadNibble(m, addr, w, base);
      case 8 => var fn := ReadNibble(m, addr, w, base);
      case 12 => var fn := ReadNibble(m, addr, w, base);
      case _ =>
        var k := n % 4;
        n := if k == 1 then 2 else if k == 2 then 4 else 5;
        addr := AppendImmNibble(m, addr, n);
    }
  }

  /** 80: the address is that of the third nibble. */
  method Disasm80(m: Mem, addr0: int, mode: Mode, ghost w: seq<int>, ghost base: int)
    returns (addr: int, target: Option<int>)
    requires MemOk(m) && w == Window(m, base) && w[0] == 8 && w[1] == 0 && addr0 == base + 2
    ensures Listed(w, base, addr, target, Group80(w))
  {
    hide MemOk, Window, Imm, Below, Signed;
    addr, target := addr0, None;
    var n := ReadNibble(m, addr, w, base);
    addr := addr + 1;
    if n <= 7 || 9 <= n <= 11 || n == 14 { return; }
    if n == 8 {
      addr, target := Disasm808(m, addr, mode, w, base);
    } else {
      var fn := ReadNibble(m, addr, w, base);
      addr := addr + 1;
    }
  }

  method Disasm808(m: Mem, addr0: int, mode: Mode, ghost w: seq<int>, ghost base: int)
    returns (addr: int, target: Option<int>)
    requires MemOk(m) && w == Window(m, base) && w[0] == 8 && w[1] == 0 && w[2] == 8 && addr0 == base + 3
    ensures Listed(w, base, addr, target, Group808(w))
  {
    ImmBelow(w, 5, 2);
    hide MemOk, Window, Imm, Below, Signed;
    addr, target := addr0, None;
    var fn := ReadNibble(m, addr, w, base);
    addr := addr + 1;
    match fn {
      case 1 =>
        var n := ReadNibble(m, addr, w, base);
        addr := addr + 1;
      case 2 =>
        var n := ReadNibble(m, addr, w, base);
        addr := addr + 1;
        if mode.HpMnemonics? { addr := AppendImmNibble(m, addr, n + 1); }
        else { addr := AppendImmNibble(m, addr, n + 1); }
      case 4 => addr := AppendImmNibble(m, addr, 1);
      case 5 => addr := AppendImmNibble(m, addr, 1);
      case 8 => addr := AppendImmNibble(m, addr, 1);
      case 9 => addr := AppendImmNibble(m, addr, 1);
      case 0 =>
      case 3 =>
      case 12 =>
      case 13 =>
      case 14 =>
      case 15 =>
      case _ =>
        var n := ReadNibble(m, addr, w, base);
        addr := addr + 1;
        addr, target := GoYes(m, addr, w, base);
    }
  }

  lemma ImmBelow(w: seq<int>, at: nat, n: nat)
    requires Nibbles(w) && at + n <= WINDOW
    ensures 0 <= Imm(w, at, n) < Pow(16, n)
  {
    ValueBound(w[at..at + n], 16);
  }

  /** The two displacement nibbles of a test: zero returns, anything else is relative to itself. */
  method GoYes(m: Mem, addr0: int, ghost w: seq<int>, ghost base: int) returns (addr: int, target: Option<int>)
    requires MemOk(m) && w == Window(m, base) && base <= addr0 <= base + WINDOW - 2
    ensures addr == addr0 + 2
    ensures var off := Imm(w, addr0 - base, 2);
            target == if off == 0 then None else Some((addr0 + Signed(off, 2)) % ADDR_SPACE)
  {
    ImmBelow(w, addr0 - base, 2);
    hide MemOk, Window, Imm, Signed, Pow;
    var pc := addr0;
    var disp;
    disp, addr := ReadInt(m, addr0, 2, w, base);
    target := None;
    if disp != 0 {
      pc := AppendRAddr(pc, disp, 2);
      target := Some(pc);
    }
  }

  method Disasm81(m: Mem, addr0: int, mode: Mode, ghost w: seq<int>, ghost base: int) returns (addr: int)
    requires MemOk(m) && w == Window(m, base) && w[0] == 8 && w[1] == 1 && addr0 == base + 2
    ensures Listed(w, base, addr, None, Group81(w))
  {
    hide MemOk, Window, Imm, Below, ScratchGroup;
    addr := addr0;
    var n := ReadNibble(m, addr, w, base);
    addr := addr + 1;
    if n == 8 {
      var fn := ReadNibble(m, addr, w, base);
      n := ReadNibble(m, addr + 1, w, base);
      addr := addr + 2;
      if mode.HpMnemonics? {
        fn := ReadNibble(m, addr, w, base);
        addr := addr + 1;
      } else {
        fn := ReadNibble(m, addr, w, base);
        addr := addr + 1;
      }
    } else if n == 9 {
      if mode.HpMnemonics? { addr := addr + 1; } else { addr := addr + 1; }
    } else if n == 10 {
      var fn := ReadNibble(m, addr, w, base);
      n := ReadNibble(m, addr + 1, w, base);
      addr := addr + 2;
      if n > 2 { return; }
      var c := ReadNibble(m, addr, w, base);
      addr := addr + 1;
    } else if n == 11 {
      n := ReadNibble(m, addr, w, base);
      addr := addr + 1;
    }
  }

  /** 8C to 8F: long jumps and calls. */
  method DisasmLong(m: Mem, addr0: int, fn: int, ghost w: seq<int>, ghost base: int)
    returns (addr: int, target: Option<int>)
    requires MemOk(m) && w == Window(m, base) && w[0] == 8 && fn == w[1] >= 12 && addr0 == base + 2
    ensures Listed(w, base, addr, target, Group8(w))
  {
    ImmBelow(w, 2, 4);
    assert fn < 16;
    hide MemOk, Window, Imm, Below, Signed, Pow, Group80, Group81;
    addr, target := addr0, None;
    match fn {
      case 12 =>
        var pc := addr;
        var disp;
        disp, addr := ReadInt(m, addr, 4, w, base);
        pc := AppendRAddr(pc, disp, 4);
        target := Some(pc);
      case 14 =>
        var pc := addr + 4;
        var disp;
        disp, addr := ReadInt(m, addr, 4, w, base);
        pc := AppendRAddr(pc, disp, 4);
        target := Some(pc);
      case _ =>
        var pc;
        pc, addr := ReadInt(m, addr, 5, w, base);
        target := Some(pc);
    }
  }

  /** 8: the address is that of the second nibble. */
  method Disasm8(m: Mem, addr0: int, mode: Mode, ghost w: seq<int>, ghost base: int)
    returns (addr: int, target: Option<int>)
    requires MemOk(m) && w == Window(m, base) && w[0] == 8 && w[1] != 10 && w[1] != 11 && addr0 == base + 1
    ensures Listed(w, base, addr, target, Group8(w))
  {
    hide MemOk, Window, Imm, Below, Signed, Pow, Group80, Group81;
    addr, target := addr0, None;
    var fn := ReadNibble(m, addr, w, base);
    addr := addr + 1;
    match fn {
      case 0 => addr, target := Disasm80(m, addr, mode, w, base);
      case 1 => addr := Disasm81(m, addr, mode, w, base);
      case 2 => addr := addr + 1;
      case 4 => addr := AppendImmNibble(m, addr, 1);
      case 5 => addr := AppendImmNibble(m, addr, 1);
      case 3 => addr, target := GoYes(m, addr + 1, w, base);
      case 6 => addr, target := GoYes(m, addr + 1, w, base);
      case 7 => addr, target := GoYes(m, addr + 1, w, base);
      case 8 => addr, target := GoYes(m, addr + 1, w, base);
      case 9 => addr, target := GoYes(m, addr + 1, w, base);
      case _ => addr, target := DisasmLong(m, addr, fn, w, base);
    }
  }

  /** The tests of 8A, 8B and 9; the address is that of the second nibble. */
  method DisasmTest(m: Mem, addr0: int, ghost w: seq<int>, ghost base: int) returns (addr: int, target: Option<int>)
    requires MemOk(m) && w == Window(m, base) && addr0 == base + 1
    requires w[0] == 9 || (w[0] == 8 && (w[1] == 10 || w[1] == 11))
    ensures Listed(w, base, addr, target, DecodeAt(w))
  {
    hide MemOk, Window, Imm, Below, Signed, EqualGroup, OrderGroup;
    var fn := ReadNibble(m, addr0, w, base);
    var n := ReadNibble(m, addr0 + 1, w, base);
    addr, target := GoYes(m, addr0 + 2, w, base);
  }

  method DisasmBranch(m: Mem, addr0: int, ghost w: seq<int>, ghost base: int) returns (addr: int, target: Option<int>)
    requires MemOk(m) && w == Window(m, base) && addr0 == base + 1 && 4 <= w[0] <= 7
    ensures Listed(w, base, addr, target, DecodeAt(w))
  {
    ImmBelow(w, 1, 2);
    ImmBelow(w, 1, 3);
    hide MemOk, Window, Imm, Below, Signed, Pow;
    var n := ReadNibble(m, addr0 - 1, w, base);
    target := None;
    var disp;
    if n == 4 || n == 5 {
      var pc := addr0;
      disp, addr := ReadInt(m, addr0, 2, w, base);
      if disp != 2 && disp != 0 {
        pc := AppendRAddr(pc, disp, 2);
        target := Some(pc);
      }
    } else if n == 6 {
      var pc := addr0;
      disp, addr := ReadInt(m, addr0, 3, w, base);
      if disp != 3 && disp != 4 {
        pc := AppendRAddr(pc, disp, 3);
        target := Some(pc);
      }
    } else {
      var pc := addr0 + 3;
      disp, addr := ReadInt(m, addr0, 3, w, base);
      pc := AppendRAddr(pc, disp, 3);
      target := Some(pc);
    }
  }

  /** The address after the instruction listed, and the address the listing names. */
  method Disassemble(m: Mem, addr0: int, mode: Mode) returns (addr: int, target: Option<int>)
    requires MemOk(m)
    ensures Listed(Window(m, addr0), addr0, addr, target, DecodeAt(Window(m, addr0)))
  {
    ghost var w, base := Window(m, addr0), addr0;
    hide MemOk, Window, Imm, Below, Signed, Pow, Group1, Group8, LogicGroup, AddGroup, SubGroup, CopyGroup, ShiftGroup;
    addr, target := addr0, None;
    var n := ReadNibble(m, addr, w, base);
    addr := addr + 1;
    match n {
      case 0 =>
        n := ReadNibble(m, addr, w, base);
        addr := addr + 1;
        if n == 0xe { addr := addr + 2; }
      case 1 => addr := Disasm1(m, addr, mode, w, base);
      case 2 => addr := addr + 1;
      case 3 =>
        var fn := ReadNibble(m, addr, w, base);
        addr := addr + 1;
        if mode.HpMnemonics? { addr := AppendImmNibble(m, addr, fn + 1); }
        else { addr := AppendImmNibble(m, addr, fn + 1); }
      case 8 =>
        var fn := ReadNibble(m, addr, w, base);
        if fn != 0xa && fn != 0xb { addr, target := Disasm8(m, addr, mode, w, base); }
        else { addr, target := DisasmTest(m, addr, w, base); }
      case 9 => addr, target := DisasmTest(m, addr, w, base);
      case 10 => addr := addr + 2;
      case 11 => addr := addr + 2;
      case 12 => addr := addr + 1;
      case 13 => addr := addr + 1;
      case 14 => addr := addr + 1;
      case 15 => addr := addr + 1;
      case _ => addr, target := DisasmBranch(m, addr, w, base);
    }
  }

  // ---------------------------------------------------- agreement with the processor

  /** Instructions that always go on with the next one. */
  predicate Sequential(i: Instr)
  {
    i.Simple? || i.Nop? || i.Trap? || i.PushC? || i.PopC? || i.RegFromPc?
  }

  /** Stores that raise no interrupt, and RSI with interrupts masked or no key down, go on too. */
  predicate GoesOn(s: Saturn, i: Instr)
    requires CoreOk(s.core) && InstrOk(i)
  {
    var c := s.core;
    CoreMem(c);
    Sequential(i) || NotTaken(c, i) ||
    ((i.Store? || i.StoreN? || i.ResetInt?) && !s.flow.enabled) ||
    (i.Store? && Calm(c.mem, GetD(c, i.d), FieldOf(c, i.src, i.f))) ||
    (i.StoreN? && Calm(c.mem, GetD(c, i.d), Get(c, i.src)[..i.n])) ||
    (i.ResetInt? && forall k :: 0 <= k < 9 ==> c.rows[k] == 0)
  }

  predicate Calm(m: Mem, addr: int, v: seq<int>)
    requires Mapped(m)
  {
    forall k :: 0 <= k < |v| ==> !Raises(m, addr + k, v[k])
  }

  predicate Taken(c: Core, i: Instr)
    requires CoreOk(c) && InstrOk(i)
  {
    match i
    case JumpCarry(on, off) => c.CARRY == on && off != 0
    case Test(t, off) => Holds(c, t) && off != 0
    case Jump(_) => true
    case JumpTo(_) => true
    case Call(_) => true
    case CallTo(_) => true
    case _ => false
  }

  predicate NotTaken(c: Core, i: Instr)
    requires CoreOk(c) && InstrOk(i)
  {
    match i
    case JumpCarry(on, _) => c.CARRY != on
    case Test(t, _) => !Holds(c, t)
    case _ => false
  }

  /** The listing's next address is where the processor falls through to, unless a nibble is lost. */
  lemma NextIsFallThrough(s: Saturn, next: int, target: Option<int>)
    requires Ok(s) && Listed(Window(s.core.mem, s.flow.pc), s.flow.pc, next, target, Fetch(s))
    requires GoesOn(s, Fetch(s).i)
    ensures next == StepOf(s).0.flow.pc <==> !LosesNibble(Window(s.core.mem, s.flow.pc))
  {
    GoesOnNext(s, Fetch(s));
    hide CoreOk, Fetch, Window, Exec, GoesOn, LosesNibble;
  }

  lemma FlowKept(c: Core, f: Flow, addr: int, v: seq<int>)
    requires CoreOk(c) && MemOk(c.mem) && (!f.enabled || Calm(c.mem, addr, v))
    ensures StoreRun(Saturn(c, f), addr, v).flow == f
  {
    StoreRunFlow(Saturn(c, f), addr, v);
    hide CoreOk, MemOk, StoreRun, Raises;
  }

  lemma StoreGoesOn(s: Saturn, op: Opcode)
    requires Ok(s) && InstrOk(op.i) && GoesOn(s, op.i) && (op.i.Store? || op.i.StoreN?)
    ensures Exec(s, op).flow == Advance(s.flow, op.len)
  {
    var c := s.core;
    assert |Get(c, op.i.src)| == 16 && c.P < 16;
    CoreMem(c);
    hide CoreOk, MemOk, StoreRun, Calm, FieldOf, GetD, Get, Holds;
    match op.i
    case Store(d, src, f) => FlowKept(c, Advance(s.flow, op.len), GetD(c, d), FieldOf(c, src, f));
    case StoreN(d, src, n) => FlowKept(c, Advance(s.flow, op.len), GetD(c, d), Get(c, src)[..n]);
  }

  lemma GoesOnNext(s: Saturn, op: Opcode)
    requires Ok(s) && InstrOk(op.i) && GoesOn(s, op.i)
    ensures Exec(s, op).flow.pc == s.flow.pc + op.len
  {
    if op.i.Store? || op.i.StoreN? {
      hide CoreOk, MemOk, Exec, GoesOn;
      StoreGoesOn(s, op);
    } else {
      hide CoreOk, MemOk, DataStep, Holds, StoreRun, Signed, FieldOf, GetD, Get, Set, Addr, Low, Split, LoadDown;
      hide Calm;
    }
  }

  /** The address a call leaves on the return stack is the listing's next address. */
  lemma NextIsReturnAddress(s: Saturn, next: int, target: Option<int>)
    requires Ok(s) && Listed(Window(s.core.mem, s.flow.pc), s.flow.pc, next, target, Fetch(s))
    requires Fetch(s).i.Call? || Fetch(s).i.CallTo?
    ensures var t := StepOf(s).0.flow.stack; t != [] && t[|t| - 1] == next
  {
    CallsLoseNothing(Window(s.core.mem, s.flow.pc));
    FetchIsDecode(s);
    hide CoreOk, Fetch, Window, DataStep, Holds, StoreRun, LosesNibble, Signed, DecodeAt;
  }

  lemma CallsLoseNothing(w: seq<int>)
    requires Nibbles(w) && (DecodeAt(w).i.Call? || DecodeAt(w).i.CallTo?)
    ensures !LosesNibble(w)
  {
    hide Imm, Signed;
  }

  /** Every branch, call and test that is taken goes to the address the listing names. */
  lemma TargetIsDestination(s: Saturn, next: int, target: Option<int>)
    requires Ok(s) && Listed(Window(s.core.mem, s.flow.pc), s.flow.pc, next, target, Fetch(s))
    requires Taken(s.core, Fetch(s).i) && target.Some?
    ensures StepOf(s).0.flow.pc % ADDR_SPACE == target.value % ADDR_SPACE
  {
    hide CoreOk, Fetch, Window, DataStep, Holds, StoreRun, LosesNibble, Signed;
  }

  /** A taken branch for which no address is listed is GONC to the next instruction. */
  lemma UnlistedBranch(s: Saturn, next: int, target: Option<int>)
    requires Ok(s) && Listed(Window(s.core.mem, s.flow.pc), s.flow.pc, next, target, Fetch(s))
    requires Taken(s.core, Fetch(s).i) && target.None?
    ensures Fetch(s).len == 3 && StepOf(s).0.flow.pc == (s.flow.pc + 3) % ADDR_SPACE
  {
    FetchIsDecode(s);
    CarryBranchLength(Window(s.core.mem, s.flow.pc));
    Pow16(2);
    hide CoreOk, Fetch, Window, DataStep, Holds, StoreRun, LosesNibble, DecodeAt;
  }

  lemma CarryBranchLength(w: seq<int>)
    requires Nibbles(w)
    ensures DecodeAt(w).i.JumpCarry? ==> DecodeAt(w).len == 3
  {
    hide Imm, Signed;
  }

  // -------------------------------------------------------------- the two sign extensions

  /** OR-ing in a mask and OR-ing in the complement of sign-1 both subtract 16^n, for each width used. */
  lemma SignExtension2(v: bv32)
    requires v < 0x100 && v & 0x80 != 0
    ensures v | 0xffffff00 == v - 0x100 && v | !(0x80 - 1) == v - 0x100
  {
  }

  lemma SignExtension3(v: bv32)
    requires v < 0x1000 && v & 0x800 != 0
    ensures v | 0xfffff000 == v - 0x1000 && v | !(0x800 - 1) == v - 0x1000
  {
  }

  lemma SignExtension4(v: bv32)
    requires v < 0x10000 && v & 0x8000 != 0
    ensures v | 0xffff0000 == v - 0x10000 && v | !(0x8000 - 1) == v - 0x10000
  {
  }
}
