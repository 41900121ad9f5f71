/**
 The interpreter: nested switches on the nibbles at the program counter, which execute as they
 decode and move the program counter as they go, proved to do what decoding the whole
 instruction first and then executing it would do.
 */
module Cpu {
  import opened Wrappers
  import opened Digits
  import opened Fields
  import opened Memory
  import opened ReturnStack
  import opened Interrupts
  import opened Instructions
  import opened Machine
  import opened Step

  class Cpu {
    var core: Core
    var PC: int
    var rstk: seq<int>
    var intenable: bool
    var int_pending: bool

    ghost predicate Ready()
      reads this
    {
      CoreOk(core)
    }

    function FlowView(): Flow
      reads this
    {
      Flow(PC, rstk, intenable, int_pending)
    }

    function View(): Saturn
      reads this
    {
      Saturn(core, FlowView())
    }

    /** An instruction that the register and status units carry out: the counter moves on first. */
    method Simple(len: nat, d: Data)
      requires Ready() && DataOk(d)
      modifies this
      ensures Ready() && View() == Outcome(old(View()), Inline(d, len))
    {
      DataKeepsOk(core, d);
      hide DataStep, CoreOk, DataOk;
      PC := PC + len;
      core := DataStep(core, d);
    }

    method PushReturnAddr(addr: int)
      modifies this`rstk
      ensures rstk == Push(old(rstk), addr)
    {
      rstk := Push(rstk, addr);
    }

    method PopReturnAddr() returns (addr: int)
      modifies this`rstk
      ensures (rstk, addr) == Pop(old(rstk))
    {
      var (s, a) := Pop(rstk);
      rstk := s;
      return a;
    }

    method SetFlow(f: Flow)
      modifies this`PC, this`rstk, this`intenable, this`int_pending
      ensures FlowView() == f
    {
      PC, rstk, intenable, int_pending := f.pc, f.stack, f.enabled, f.pending;
    }

    // ------------------------------------------------------------------ fetching

    /** One nibble of the instruction that starts at `base`. */
    method ReadNibble(addr: int, ghost w: seq<int>, ghost base: int) returns (n: int)
      requires Ready() && w == Window(core.mem, base) && base <= addr < base + WINDOW
      ensures n == w[addr - base] && 0 <= n < 16
    {
      CoreMem(core);
      LoadAllAt(core.mem, base, WINDOW, addr - base);
      hide CoreOk, MemOk, Load;
      n := Load(core.mem, addr).1;
      assert n == w[addr - base];
    }

    method ReadNibbles(addr: int, len: nat, ghost w: seq<int>, ghost base: int) returns (val: int)
      requires Ready() && w == Window(core.mem, base) && base <= addr && addr + len <= base + WINDOW
      ensures val == Imm(w, addr - base, len)
    {
      hide CoreOk, Window, Value;
      ghost var k := addr - base;
      var n := len;
      val := 0;
      ValueNone(16);
      assert w[k + len..k + len] == [];
      while n > 0
        invariant 0 <= n <= len && val == Value(w[k + n..k + len], 16)
      {
        n := n - 1;
        var nib := ReadNibble(addr + n, w, base);
        ValueCons(nib, w[k + n + 1..k + len], 16);
        assert [nib] + w[k + n + 1..k + len] == w[k + n..k + len];
        val := val * 16 + nib;
      }
    }

    /** The digits of a constant, lowest address first. */
    method ReadDigits(addr: int, len: nat, ghost w: seq<int>, ghost base: int) returns (v: seq<int>)
      requires Ready() && w == Window(core.mem, base) && base <= addr && addr + len <= base + WINDOW
      ensures v == w[addr - base..addr - base + len] && Below(v, 16)
    {
      hide CoreOk, Window;
      v := [];
      for i := 0 to len
        invariant v == w[addr - base..addr - base + i]
      {
        var nib := ReadNibble(addr + i, w, base);
        v := v + [nib];
      }
    }

    /** op |= mask when the sign bit is set */
    static function SignExtend(v: int, n: nat): int
    {
      Signed(v, n)
    }

    // ------------------------------------------------------------------ memory

    method WriteNibble(addr: int, val: int)
      requires Ready()
      modifies this
      ensures Ready() && View() == StoreNib(old(View()), addr, val)
    {
      StoreNibOk(View(), addr, val);
      hide CoreOk, MemOk, Memory.Store;
      var s := StoreNib(View(), addr, val);
      core := s.core;
      SetFlow(s.flow);
    }

    /** The loop of store and store_n over the nibbles of a register. */
    method StoreRange(dat: int, reg: seq<int>, s: nat, e: nat)
      requires Ready() && s <= e <= |reg|
      modifies this
      ensures Ready() && View() == StoreRun(old(View()), dat, reg[s..e])
    {
      hide CoreOk, StoreNib;
      ghost var v := View();
      for i := s to e
        invariant Ready() && View() == StoreRun(v, dat, reg[s..i])
      {
        assert reg[s..i + 1][..i - s] == reg[s..i];
        WriteNibble(dat + (i - s), reg[i]);
      }
    }

    method StoreField(len: nat, d: nat, r: Reg, f: nat)
      requires Ready() && d < 2 && f < 19
      modifies this
      ensures Ready() && View() == Outcome(old(View()), Opcode(Store(d, r, f), len))
    {
      hide StoreRun, DataStep;
      PC := PC + len;
      StoreRange(GetD(core, d), Get(core, r), GetStart(core.P, f), GetEnd(core.P, f) + 1);
    }

    method StoreCount(len: nat, d: nat, r: Reg, n: nat)
      requires Ready() && d < 2 && n <= 16
      modifies this
      ensures Ready() && View() == Outcome(old(View()), Opcode(StoreN(d, r, n), len))
    {
      hide StoreRun, DataStep;
      PC := PC + len;
      StoreRange(GetD(core, d), Get(core, r), 0, n);
    }

    // ------------------------------------------------------------- operand switches

    /** The sixteen sums and decrements, on one field. */
    method AddGroupOp(len: nat, k: nat, f: nat)
      requires Ready() && k < 16 && f < 19
      modifies this
      ensures Ready() && View() == Outcome(old(View()), Inline(AddGroup(k, f), len))
    {
      hide Outcome, CoreOk;
      match k {
        case 0 => Simple(len, Add(RA, RB, f));
        case 1 => Simple(len, Add(RB, RC, f));
        case 2 => Simple(len, Add(RC, RA, f));
        case 3 => Simple(len, Add(RD, RC, f));
        case 4 => Simple(len, Add(RA, RA, f));
        case 5 => Simple(len, Add(RB, RB, f));
        case 6 => Simple(len, Add(RC, RC, f));
        case 7 => Simple(len, Add(RD, RD, f));
        case 8 => Simple(len, Add(RB, RA, f));
        case 9 => Simple(len, Add(RC, RB, f));
        case 10 => Simple(len, Add(RA, RC, f));
        case 11 => Simple(len, Add(RC, RD, f));
        case 12 => Simple(len, Dec(RA, f));
        case 13 => Simple(len, Dec(RB, f));
        case 14 => Simple(len, Dec(RC, f));
        case _ => Simple(len, Dec(RD, f));
      }
    }

    /** The sixteen clears, copies and exchanges. */
    method CopyGroupOp(len: nat, k: nat, f: nat)
      requires Ready() && k < 16 && f < 19
      modifies this
      ensures Ready() && View() == Outcome(old(View()), Inline(CopyGroup(k, f), len))
    {
      hide Outcome, CoreOk;
      match k {
        case 0 => Simple(len, Clear(RA, f));
        case 1 => Simple(len, Clear(RB, f));
        case 2 => Simple(len, Clear(RC, f));
        case 3 => Simple(len, Clear(RD, f));
        case 4 => Simple(len, Copy(RA, RB, f));
        case 5 => Simple(len, Copy(RB, RC, f));
        case 6 => Simple(len, Copy(RC, RA, f));
        case 7 => Simple(len, Copy(RD, RC, f));
        case 8 => Simple(len, Copy(RB, RA, f));
        case 9 => Simple(len, Copy(RC, RB, f));
        case 10 => Simple(len, Copy(RA, RC, f));
        case 11 => Simple(len, Copy(RC, RD, f));
        case 12 => Simple(len, Exchange(RA, RB, f));
        case 13 => Simple(len, Exchange(RB, RC, f));
        case 14 => Simple(len, Exchange(RA, RC, f));
        case _ => Simple(len, Exchange(RC, RD, f));
      }
    }

    /** The sixteen differences and increments. */
    method SubGroupOp(len: nat, k: nat, f: nat)
      requires Ready() && k < 16 && f < 19
      modifies this
      ensures Ready() && View() == Outcome(old(View()), Inline(SubGroup(k, f), len))
    {
      hide Outcome, CoreOk;
      match k {
        case 0 => Simple(len, Sub(RA, RA, RB, f));
        case 1 => Simple(len, Sub(RB, RB, RC, f));
        case 2 => Simple(len, Sub(RC, RC, RA, f));
        case 3 => Simple(len, Sub(RD, RD, RC, f));
        case 4 => Simple(len, Inc(RA, f));
        case 5 => Simple(len, Inc(RB, f));
        case 6 => Simple(len, Inc(RC, f));
        case 7 => Simple(len, Inc(RD, f));
        case 8 => Simple(len, Sub(RB, RB, RA, f));
        case 9 => Simple(len, Sub(RC, RC, RB, f));
        case 10 => Simple(len, Sub(RA, RA, RC, f));
        case 11 => Simple(len, Sub(RC, RC, RD, f));
        case 12 => Simple(len, Sub(RA, RB, RA, f));
        case 13 => Simple(len, Sub(RB, RC, RB, f));
        case 14 => Simple(len, Sub(RC, RA, RC, f));
        case _ => Simple(len, Sub(RD, RC, RD, f));
      }
    }

    /** The sixteen shifts and complements. */
    method ShiftGroupOp(len: nat, k: nat, f: nat)
      requires Ready() && k < 16 && f < 19
      modifies this
      ensures Ready() && View() == Outcome(old(View()), Inline(ShiftGroup(k, f), len))
    {
      hide Outcome, CoreOk;
      match k {
        case 0 => Simple(len, Shl(RA, f, false));
        case 1 => Simple(len, Shl(RB, f, false));
        case 2 => Simple(len, Shl(RC, f, false));
        case 3 => Simple(len, Shl(RD, f, false));
        case 4 => Simple(len, Shr(RA, f, false));
        case 5 => Simple(len, Shr(RB, f, false));
        case 6 => Simple(len, Shr(RC, f, false));
        case 7 => Simple(len, Shr(RD, f, false));
        case 8 => Simple(len, Neg(RA, f));
        case 9 => Simple(len, Neg(RB, f));
        case 10 => Simple(len, Neg(RC, f));
        case 11 => Simple(len, Neg(RD, f));
        case 12 => Simple(len, Not(RA, f));
        case 13 => Simple(len, Not(RB, f));
        case 14 => Simple(len, Not(RC, f));
        case _ => Simple(len, Not(RD, f));
      }
    }

    /** The sixteen bitwise operations. */
    method LogicGroupOp(len: nat, k: nat, f: nat)
      requires Ready() && k < 16 && f < 19
      modifies this
      ensures Ready() && View() == Outcome(old(View()), Inline(LogicGroup(k, f), len))
    {
      hide Outcome, CoreOk;
      match k {
        case 0 => Simple(len, Logic(false, RA, RB, f));
        case 1 => Simple(len, Logic(false, RB, RC, f));
        case 2 => Simple(len, Logic(false, RC, RA, f));
        case 3 => Simple(len, Logic(false, RD, RC, f));
        case 4 => Simple(len, Logic(false, RB, RA, f));
        case 5 => Simple(len, Logic(false, RC, RB, f));
        case 6 => Simple(len, Logic(false, RA, RC, f));
        case 7 => Simple(len, Logic(false, RC, RD, f));
        case 8 => Simple(len, Logic(true, RA, RB, f));
        case 9 => Simple(len, Logic(true, RB, RC, f));
        case 10 => Simple(len, Logic(true, RC, RA, f));
        case 11 => Simple(len, Logic(true, RD, RC, f));
        case 12 => Simple(len, Logic(true, RB, RA, f));
        case 13 => Simple(len, Logic(true, RC, RB, f));
        case 14 => Simple(len, Logic(true, RA, RC, f));
        case _ => Simple(len, Logic(true, RC, RD, f));
      }
    }

    /** R0 to R4 from A or C; codes 5 to 7 repeat 1 to 3. */
    method ToScratchOp(len: nat, k: nat, f: nat)
      requires Ready() && k < 16 && f < 19
      modifies this
      ensures Ready() && View() == Outcome(old(View()), Inline(ScratchGroup(0, k, f), len))
    {
      hide Outcome, CoreOk;
      match k {
        case 0 => Simple(len, ToScratch(0, RA, f));
        case 1 => Simple(len, ToScratch(1, RA, f));
        case 2 => Simple(len, ToScratch(2, RA, f));
        case 3 => Simple(len, ToScratch(3, RA, f));
        case 4 => Simple(len, ToScratch(4, RA, f));
        case 5 => Simple(len, ToScratch(1, RA, f));
        case 6 => Simple(len, ToScratch(2, RA, f));
        case 7 => Simple(len, ToScratch(3, RA, f));
        case 8 => Simple(len, ToScratch(0, RC, f));
        case 9 => Simple(len, ToScratch(1, RC, f));
        case 10 => Simple(len, ToScratch(2, RC, f));
        case 11 => Simple(len, ToScratch(3, RC, f));
        case 12 => Simple(len, ToScratch(4, RC, f));
        case 13 => Simple(len, ToScratch(1, RC, f));
        case 14 => Simple(len, ToScratch(2, RC, f));
        case _ => Simple(len, ToScratch(3, RC, f));
      }
    }

    /** A or C from R0 to R4. */
    method FromScratchOp(len: nat, k: nat, f: nat)
      requires Ready() && k < 16 && f < 19
      modifies this
      ensures Ready() && View() == Outcome(old(View()), Inline(ScratchGroup(1, k, f), len))
    {
      hide Outcome, CoreOk;
      match k {
        case 0 => Simple(len, FromScratch(RA, 0, f));
        case 1 => Simple(len, FromScratch(RA, 1, f));
        case 2 => Simple(len, FromScratch(RA, 2, f));
        case 3 => Simple(len, FromScratch(RA, 3, f));
        case 4 => Simple(len, FromScratch(RA, 4, f));
        case 5 => Simple(len, FromScratch(RA, 1, f));
        case 6 => Simple(len, FromScratch(RA, 2, f));
        case 7 => Simple(len, FromScratch(RA, 3, f));
        case 8 => Simple(len, FromScratch(RC, 0, f));
        case 9 => Simple(len, FromScratch(RC, 1, f));
        case 10 => Simple(len, FromScratch(RC, 2, f));
        case 11 => Simple(len, FromScratch(RC, 3, f));
        case 12 => Simple(len, FromScratch(RC, 4, f));
        case 13 => Simple(len, FromScratch(RC, 1, f));
        case 14 => Simple(len, FromScratch(RC, 2, f));
        case _ => Simple(len, FromScratch(RC, 3, f));
      }
    }

    /** A or C exchanged with R0 to R4. */
    method ExchScratchOp(len: nat, k: nat, f: nat)
      requires Ready() && k < 16 && f < 19
      modifies this
      ensures Ready() && View() == Outcome(old(View()), Inline(ScratchGroup(2, k, f), len))
    {
      hide Outcome, CoreOk;
      match k {
        case 0 => Simple(len, ExchScratch(RA, 0, f));
        case 1 => Simple(len, ExchScratch(RA, 1, f));
        case 2 => Simple(len, ExchScratch(RA, 2, f));
        case 3 => Simple(len, ExchScratch(RA, 3, f));
        case 4 => Simple(len, ExchScratch(RA, 4, f));
        case 5 => Simple(len, ExchScratch(RA, 1, f));
        case 6 => Simple(len, ExchScratch(RA, 2, f));
        case 7 => Simple(len, ExchScratch(RA, 3, f));
        case 8 => Simple(len, ExchScratch(RC, 0, f));
        case 9 => Simple(len, ExchScratch(RC, 1, f));
        case 10 => Simple(len, ExchScratch(RC, 2, f));
        case 11 => Simple(len, ExchScratch(RC, 3, f));
        case 12 => Simple(len, ExchScratch(RC, 4, f));
        case 13 => Simple(len, ExchScratch(RC, 1, f));
        case 14 => Simple(len, ExchScratch(RC, 2, f));
        case _ => Simple(len, ExchScratch(RC, 3, f));
      }
    }

    /** All five nibbles of a pointer set or exchanged. */
    method WholePointerOp(len: nat, k: nat)
      requires Ready() && k < 8
      modifies this
      ensures Ready() && View() == Outcome(old(View()), Inline(PointerGroup(k), len))
    {
      hide Outcome, CoreOk;
      match k {
        case 0 => Simple(len, SetD(0, RA, 5));
        case 1 => Simple(len, SetD(1, RA, 5));
        case 2 => Simple(len, ExchD(RA, 0, 5));
        case 3 => Simple(len, ExchD(RA, 1, 5));
        case 4 => Simple(len, SetD(0, RC, 5));
        case 5 => Simple(len, SetD(1, RC, 5));
        case 6 => Simple(len, ExchD(RC, 0, 5));
        case _ => Simple(len, ExchD(RC, 1, 5));
      }
    }

    /** The low four nibbles of a pointer set or exchanged. */
    method ShortPointerOp(len: nat, k: nat)
      requires Ready() && 8 <= k < 16
      modifies this
      ensures Ready() && View() == Outcome(old(View()), Inline(PointerGroup(k), len))
    {
      hide Outcome, CoreOk;
      match k {
        case 8 => Simple(len, SetD(0, RA, 4));
        case 9 => Simple(len, SetD(1, RA, 4));
        case 10 => Simple(len, ExchD(RA, 0, 4));
        case 11 => Simple(len, ExchD(RA, 1, 4));
        case 12 => Simple(len, SetD(0, RC, 4));
        case 13 => Simple(len, SetD(1, RC, 4));
        case 14 => Simple(len, ExchD(RC, 0, 4));
        case _ => Simple(len, ExchD(RC, 1, 4));
      }
    }

    /** D0 and D1 loaded from or exchanged with A and C. */
    method PointerOp(len: nat, k: nat)
      requires Ready() && k < 16
      modifies this
      ensures Ready() && View() == Outcome(old(View()), Inline(PointerGroup(k), len))
    {
      hide Outcome, CoreOk, PointerGroup;
      if k < 8 { WholePointerOp(len, k); } else { ShortPointerOp(len, k); }
    }

    /** The sixteen equality tests. */
    method EqualTest(k: nat, f: nat) returns (z: bool)
      requires Ready() && k < 16 && f < 19
      ensures CondOk(EqualGroup(k, f)) && z == Holds(core, EqualGroup(k, f))
    {
      hide Holds, CoreOk;
      match k {
        case 0 => z := Holds(core, Equal(RA, RB, f, true));
        case 1 => z := Holds(core, Equal(RB, RC, f, true));
        case 2 => z := Holds(core, Equal(RA, RC, f, true));
        case 3 => z := Holds(core, Equal(RC, RD, f, true));
        case 4 => z := Holds(core, Equal(RA, RB, f, false));
        case 5 => z := Holds(core, Equal(RB, RC, f, false));
        case 6 => z := Holds(core, Equal(RA, RC, f, false));
        case 7 => z := Holds(core, Equal(RC, RD, f, false));
        case 8 => z := Holds(core, Zero(RA, f, true));
        case 9 => z := Holds(core, Zero(RB, f, true));
        case 10 => z := Holds(core, Zero(RC, f, true));
        case 11 => z := Holds(core, Zero(RD, f, true));
        case 12 => z := Holds(core, Zero(RA, f, false));
        case 13 => z := Holds(core, Zero(RB, f, false));
        case 14 => z := Holds(core, Zero(RC, f, false));
        case _ => z := Holds(core, Zero(RD, f, false));
      }
    }

    /** The sixteen order tests. */
    method OrderTest(k: nat, f: nat) returns (z: bool)
      requires Ready() && k < 16 && f < 19
      ensures CondOk(OrderGroup(k, f)) && z == Holds(core, OrderGroup(k, f))
    {
      hide Holds, CoreOk;
      match k {
        case 0 => z := Holds(core, Order(RA, RB, f, 0));
        case 1 => z := Holds(core, Order(RB, RC, f, 0));
        case 2 => z := Holds(core, Order(RC, RA, f, 0));
        case 3 => z := Holds(core, Order(RD, RC, f, 0));
        case 4 => z := Holds(core, Order(RA, RB, f, 1));
        case 5 => z := Holds(core, Order(RB, RC, f, 1));
        case 6 => z := Holds(core, Order(RC, RA, f, 1));
        case 7 => z := Holds(core, Order(RD, RC, f, 1));
        case 8 => z := Holds(core, Order(RA, RB, f, 2));
        case 9 => z := Holds(core, Order(RB, RC, f, 2));
        case 10 => z := Holds(core, Order(RC, RA, f, 2));
        case 11 => z := Holds(core, Order(RD, RC, f, 2));
        case 12 => z := Holds(core, Order(RA, RB, f, 3));
        case 13 => z := Holds(core, Order(RB, RC, f, 3));
        case 14 => z := Holds(core, Order(RC, RA, f, 3));
        case _ => z := Holds(core, Order(RD, RC, f, 3));
      }
    }

    /** DAT0 and DAT1 against A and C, by field. */
    method TransferOp(len: nat, k: nat, f: nat)
      requires Ready() && k < 16 && f < 19
      modifies this
      ensures Ready()
      ensures View() == Outcome(old(View()), Opcode(TransferGroup(k, f), len))
    {
      hide Outcome, CoreOk;
      match k % 8 {
        case 0 => StoreField(len, 0, RA, f);
        case 1 => StoreField(len, 1, RA, f);
        case 2 => Simple(len, Recall(RA, 0, f));
        case 3 => Simple(len, Recall(RA, 1, f));
        case 4 => StoreField(len, 0, RC, f);
        case 5 => StoreField(len, 1, RC, f);
        case 6 => Simple(len, Recall(RC, 0, f));
        case _ => Simple(len, Recall(RC, 1, f));
      }
    }

    /** The same by digit count. */
    method TransferNOp(len: nat, k: nat, n: nat)
      requires Ready() && k < 16 && n <= 16
      modifies this
      ensures Ready()
      ensures View() == Outcome(old(View()), Opcode(TransferNGroup(k, n), len))
    {
      hide Outcome, CoreOk;
      match k % 8 {
        case 0 => StoreCount(len, 0, RA, n);
        case 1 => StoreCount(len, 1, RA, n);
        case 2 => Simple(len, RecallN(RA, 0, n));
        case 3 => Simple(len, RecallN(RA, 1, n));
        case 4 => StoreCount(len, 0, RC, n);
        case 5 => StoreCount(len, 1, RC, n);
        case 6 => Simple(len, RecallN(RC, 0, n));
        case _ => Simple(len, RecallN(RC, 1, n));
      }
    }

    // ------------------------------------------------------------------ the switches

    /** The address in a register's low five nibbles. */
    function DatToAddr(r: Reg): int
      requires Ready()
      reads this
    {
      Addr(Get(core, r))
    }

    method AddrToDat(addr: int, r: Reg)
      requires Ready()
      modifies this`core
      ensures Ready() && core == Set(old(core), r, Low(Get(old(core), r), Split(addr, 16, 5)))
    {
      PcToRegOk(core, r, addr);
      core := Set(core, r, Low(Get(core, r), Split(addr, 16, 5)));
    }

    static lemma RegLength(c: Core, r: Reg)
      requires CoreOk(c)
      ensures |Get(c, r)| == 16
    {
    }

    static lemma JumpIndIs(s: Saturn, r: Reg)
      requires CoreOk(s.core) && |Get(s.core, r)| == 16
      ensures MemOk(s.core.mem)
      ensures var (m, v) := LoadDown(s.core.mem, Addr(Get(s.core, r)), 5);
              CoreOk(s.core.(mem := m)) &&
              Outcome(s, Opcode(JumpInd(r), 4)) == Saturn(s.core.(mem := m), s.flow.(pc := Value(v, 16)))
    {
      JumpIndOk(s.core, Addr(Get(s.core, r)));
      hide CoreOk, LoadDown, Value, Addr;
    }

    /** PC=(r): the new program counter is read from memory. */
    method LoadIndirect(r: Reg)
      requires Ready()
      modifies this
      ensures Ready() && View() == Outcome(old(View()), Opcode(JumpInd(r), 4))
    {
      RegLength(core, r);
      hide *;
      JumpIndIs(View(), r);
      CoreMem(core);
      var (m, v) := LoadDown(core.mem, DatToAddr(r), 5);
      core := core.(mem := m);
      PC := Value(v, 16);
    }

    static lemma TransferIsLegal(k: nat, f: nat, n: nat)
      ensures !TransferGroup(k, f).Illegal? && !TransferGroup(k, f).Trap?
      ensures !TransferNGroup(k, n).Illegal? && !TransferNGroup(k, n).Trap?
    {
    }

    /** RSI: a key already down interrupts at once. */
    method ResetInterruptSystem()
      requires Ready()
      modifies this
      ensures Ready() && View() == Outcome(old(View()), Opcode(ResetInt, 5))
    {
      hide MemOk, DataStep, StoreRun;
      PC := PC + 5;
      core := core.(kbdIen := true);
      var gen_intr := false;
      for i := 0 to 9
        invariant gen_intr <==> exists j :: 0 <= j < i && core.rows[j] != 0
      {
        if core.rows[i] != 0 {
          gen_intr := true;
          break;
        }
      }
      if gen_intr { SetFlow(KbdInt(FlowView())); }
    }

    static lemma PIsHolds(c: Core, n: nat)
      requires CoreOk(c) && n < 16
      ensures Holds(c, PIs(n, true)) == (c.P == n) && Holds(c, PIs(n, false)) == (c.P != n)
    {
    }

    static lemma IllegalIs(s: Saturn, len: nat)
      requires CoreOk(s.core)
      ensures Outcome(s, Opcode(Illegal, len)) == s
    {
    }

    static lemma SetCarryOk(c: Core, x: int)
      requires CoreOk(c) && 0 <= x <= 1
      ensures CoreOk(c.(CARRY := x)) && CoreOk(c.(XM := x)) && MemOk(c.mem)
    {
    }

    /** The common tail of all tests: branch, return or fall through. */
    method Conditional(z: bool, at: nat, ghost w: seq<int>, ghost t: Cond)
      requires Ready() && w == Window(core.mem, PC) && at + 2 <= WINDOW && CondOk(t) && z == Holds(core, t)
      modifies this
      ensures Ready() && View() == Outcome(old(View()), Opcode(Test(t, Imm(w, at, 2)), at + 2))
    {
      ghost var base := PC;
      hide CoreOk, Imm, Window, CondOk, Holds, DataStep, Signed, StoreRun, Pop;
      SetCarryOk(core, if z then 1 else 0);
      core := core.(CARRY := if z then 1 else 0);
      if z {
        PC := PC + at;
        var op := ReadNibbles(PC, 2, w, base);
        if op != 0 {
          PC := (PC + SignExtend(op, 2)) % 0x100000;
        } else {
          var a := PopReturnAddr();
          PC := a;
        }
      } else {
        PC := PC + (at + 2);
      }
    }

    method Goto(disp: int, ghost len: nat)
      requires Ready()
      modifies this`PC
      ensures View() == Outcome(old(View()), Opcode(Jump(disp), len))
    {
      PC := (PC + disp) % 0x100000;
    }

    method GotoAbsolute(addr: int, ghost len: nat)
      requires Ready()
      modifies this`PC
      ensures View() == Outcome(old(View()), Opcode(JumpTo(addr), len))
    {
      PC := addr;
    }

    method Gosub(disp: int, len: nat)
      requires Ready()
      modifies this
      ensures core == old(core) && View() == Outcome(old(View()), Opcode(Instr.Call(disp), len))
    {
      var jumpaddr := (PC + disp) % 0x100000;
      PushReturnAddr(PC + len);
      PC := jumpaddr;
    }

    method GosubAbsolute(addr: int, len: nat)
      requires Ready()
      modifies this
      ensures core == old(core) && View() == Outcome(old(View()), Opcode(CallTo(addr), len))
    {
      PushReturnAddr(PC + len);
      PC := addr;
    }

    method Return(xm: bool, carry: Option<int>)
      requires Ready() && (carry.Some? ==> 0 <= carry.value <= 1)
      modifies this
      ensures Ready() && View() == Outcome(old(View()), Opcode(Instr.Return(xm, carry), 2))
    {
      hide DataStep, StoreRun;
      if xm { core := core.(XM := 1); }
      if carry.Some? { core := core.(CARRY := carry.value); }
      var a := PopReturnAddr();
      PC := a;
    }

    method PushC()
      requires Ready()
      modifies this
      ensures core == old(core) && View() == Outcome(old(View()), Opcode(Instr.PushC, 2))
    {
      hide DataStep, StoreRun;
      PushReturnAddr(DatToAddr(RC));
      PC := PC + 2;
    }

    method PopC()
      requires Ready()
      modifies this
      ensures Ready() && View() == Outcome(old(View()), Opcode(Instr.PopC, 2))
    {
      hide DataStep, StoreRun, Low, Split;
      PC := PC + 2;
      var a := PopReturnAddr();
      AddrToDat(a, RC);
    }

    method ReturnInterrupt()
      requires Ready()
      modifies this
      ensures core == old(core) && View() == Outcome(old(View()), Opcode(ReturnInt, 2))
    {
      SetFlow(Rti(FlowView()));
    }

    /** Bits of A and C cleared, set and tested. */
    method BitOp(op4: int, ghost w: seq<int>)
      requires Ready() && w == Window(core.mem, PC) && op4 == w[3] && 4 <= op4 < 12
      modifies this
      ensures Ready() && View() == Outcome(old(View()), Group808(w))
    {
      hide Outcome, CoreOk, Window, Holds, Imm, Below;
      ghost var base := PC;
      match op4 {
        case 4 => var op5 := ReadNibble(PC + 4, w, base); Simple(5, SetBit(RA, op5, 0));
        case 5 => var op5 := ReadNibble(PC + 4, w, base); Simple(5, SetBit(RA, op5, 1));
        case 6 =>
          var op5 := ReadNibble(PC + 4, w, base);
          Conditional(Holds(core, BitIs(RA, op5, 0)), 5, w, BitIs(RA, op5, 0));
        case 7 =>
          var op5 := ReadNibble(PC + 4, w, base);
          Conditional(Holds(core, BitIs(RA, op5, 1)), 5, w, BitIs(RA, op5, 1));
        case 8 => var op5 := ReadNibble(PC + 4, w, base); Simple(5, SetBit(RC, op5, 0));
        case 9 => var op5 := ReadNibble(PC + 4, w, base); Simple(5, SetBit(RC, op5, 1));
        case 10 =>
          var op5 := ReadNibble(PC + 4, w, base);
          Conditional(Holds(core, BitIs(RC, op5, 0)), 5, w, BitIs(RC, op5, 0));
        case _ =>
          var op5 := ReadNibble(PC + 4, w, base);
          Conditional(Holds(core, BitIs(RC, op5, 1)), 5, w, BitIs(RC, op5, 1));
      }
    }

    method DecodeGroup808(ghost w: seq<int>) returns (stop: bool)
      requires Ready() && w == Window(core.mem, PC)
      modifies this
      ensures Ready() && View() == Outcome(old(View()), Group808(w))
      ensures stop == (Group808(w).i.Illegal? || Group808(w).i.Trap?)
    {
      hide Outcome, CoreOk, Window, Holds, Imm, Below;
      ghost var base := PC;
      stop := false;
      var op4 := ReadNibble(PC + 3, w, base);
      match op4 {
        case 0 => Simple(4, IntOn);
        case 1 => ResetInterruptSystem();
        case 2 =>
          var op5 := ReadNibble(PC + 4, w, base);
          var v := ReadDigits(PC + 5, op5 + 1, w, base);
          Simple(6 + op5, LoadReg(RA, v));
        case 3 => Simple(4, Bus);
        case 12 => LoadIndirect(RA);
        case 13 => Simple(4, Bus);
        case 14 => LoadIndirect(RC);
        case 15 => Simple(4, IntOff);
        case _ => BitOp(op4, w);
      }
    }

    /** Moves between P and a nibble of C. */
    method NibbleOp(op3: int, ghost w: seq<int>)
      requires Ready() && w == Window(core.mem, PC) && op3 == w[2] && (op3 == 12 || op3 == 13 || op3 == 15)
      modifies this
      ensures Ready() && View() == Outcome(old(View()), Group80(w))
    {
      hide Outcome, CoreOk, Window, Holds, Imm, Below, Group808;
      ghost var base := PC;
      match op3 {
        case 12 => var op4 := ReadNibble(PC + 3, w, base); Simple(4, CFromP(op4));
        case 13 => var op4 := ReadNibble(PC + 3, w, base); Simple(4, PFromC(op4));
        case _ => var op4 := ReadNibble(PC + 3, w, base); Simple(4, SwapPC(op4));
      }
    }

    method DecodeGroup80(ghost w: seq<int>) returns (stop: bool)
      requires Ready() && w == Window(core.mem, PC)
      modifies this
      ensures Ready() && View() == Outcome(old(View()), Group80(w))
      ensures stop == (Group80(w).i.Illegal? || Group80(w).i.Trap?)
    {
      hide Outcome, CoreOk, Window, Holds, Imm, Below, Group808;
      ghost var base := PC;
      stop := false;
      var op3 := ReadNibble(PC + 2, w, base);
      match op3 {
        case 0 => Simple(3, Out(OUTS_FIELD));
        case 1 => Simple(3, Out(OUT_FIELD));
        case 2 => Simple(3, In(RA));
        case 3 => Simple(3, In(RC));
        case 4 => Simple(3, Uncnfg);
        case 5 => Simple(3, Config);
        case 6 => Simple(3, Identify);
        case 7 => Simple(3, Data.Shutdn);
        case 8 => stop := DecodeGroup808(w);
        case 9 => Simple(3, CPlusP);
        case 10 => Simple(3, ResetBus);
        case 11 => Simple(3, Bus);
        case 14 => Simple(3, ServiceRequest);
        case _ => NibbleOp(op3, w);
      }
    }

    /** r=r+n and r=r-n on a field */
    method DecodeConstant(ghost w: seq<int>)
      requires Ready() && w == Window(core.mem, PC) && w[2] == 8
      modifies this
      ensures Ready() && View() == Outcome(old(View()), Group81(w))
    {
      hide Outcome, CoreOk, Window, Holds, Imm, Below;
      ghost var base := PC;
      var op4 := ReadNibble(PC + 3, w, base);
      var op5 := ReadNibble(PC + 4, w, base);
      var op6 := ReadNibble(PC + 5, w, base);
      if op5 < 8 {
        match op5 % 4 {
          case 0 => Simple(6, AddCon(RA, op4, op6 + 1));
          case 1 => Simple(6, AddCon(RB, op4, op6 + 1));
          case 2 => Simple(6, AddCon(RC, op4, op6 + 1));
          case _ => Simple(6, AddCon(RD, op4, op6 + 1));
        }
      } else {
        match op5 % 4 {
          case 0 => Simple(6, SubCon(RA, op4, op6 + 1));
          case 1 => Simple(6, SubCon(RB, op4, op6 + 1));
          case 2 => Simple(6, SubCon(RC, op4, op6 + 1));
          case _ => Simple(6, SubCon(RD, op4, op6 + 1));
        }
      }
    }

    method DecodeShiftBit(ghost w: seq<int>)
      requires Ready() && w == Window(core.mem, PC) && w[2] == 9
      modifies this
      ensures Ready() && View() == Outcome(old(View()), Group81(w))
    {
      hide Outcome, CoreOk, Window, Holds, Imm, Below;
      ghost var base := PC;
      var op4 := ReadNibble(PC + 3, w, base);
      var op5 := ReadNibble(PC + 4, w, base);
      match op5 % 4 {
        case 0 => Simple(5, ShrBit(RA, op4));
        case 1 => Simple(5, ShrBit(RB, op4));
        case 2 => Simple(5, ShrBit(RC, op4));
        case _ => Simple(5, ShrBit(RD, op4));
      }
    }

    /** R0 to R4 by field; selectors above 2 are undecodable. */
    method DecodeScratchField(ghost w: seq<int>) returns (stop: bool)
      requires Ready() && w == Window(core.mem, PC) && w[2] == 10
      modifies this
      ensures Ready() && View() == Outcome(old(View()), Group81(w)) && stop == Group81(w).i.Illegal?
    {
      hide Outcome, CoreOk, Window, Holds, Imm, Below, ScratchGroup;
      ghost var base := PC;
      var op4 := ReadNibble(PC + 3, w, base);
      var op5 := ReadNibble(PC + 4, w, base);
      var op6 := ReadNibble(PC + 5, w, base);
      IllegalIs(View(), 0);
      if op5 > 2 { return true; }
      match op5 {
        case 0 => ToScratchOp(6, op6, op4);
        case 1 => FromScratchOp(6, op6, op4);
        case _ => ExchScratchOp(6, op6, op4);
      }
      stop := false;
    }

    method JumpToReg(r: Reg)
      requires Ready()
      modifies this
      ensures Ready() && View() == Outcome(old(View()), Opcode(JumpReg(r), 4))
    {
      hide DataStep, StoreRun;
      PC := DatToAddr(r);
    }

    method PcToReg(r: Reg)
      requires Ready()
      modifies this
      ensures Ready() && View() == Outcome(old(View()), Opcode(RegFromPc(r), 4))
    {
      hide DataStep, StoreRun, Low, Set, Split;
      PC := PC + 4;
      AddrToDat(PC, r);
    }

    method ExchangePc(r: Reg)
      requires Ready()
      modifies this
      ensures Ready() && View() == Outcome(old(View()), Opcode(ExchPc(r), 4))
    {
      hide DataStep, StoreRun, Low, Set, Split;
      PC := PC + 4;
      var jumpaddr := DatToAddr(r);
      AddrToDat(PC, r);
      PC := jumpaddr;
    }

    /** A or C against the program counter; selectors outside 2 to 7 are undecodable. */
    method DecodePcGroup(ghost w: seq<int>) returns (stop: bool)
      requires Ready() && w == Window(core.mem, PC) && w[2] == 11
      modifies this
      ensures Ready() && View() == Outcome(old(View()), Group81(w)) && stop == Group81(w).i.Illegal?
    {
      IllegalIs(View(), 0);
      hide Outcome, CoreOk, Window;
      ghost var base := PC;
      var op4 := ReadNibble(PC + 3, w, base);
      stop := false;
      match op4 {
        case 2 => JumpToReg(RA);
        case 3 => JumpToReg(RC);
        case 4 => PcToReg(RA);
        case 5 => PcToReg(RC);
        case 6 => ExchangePc(RA);
        case 7 => ExchangePc(RC);
        case _ => stop := true;
      }
    }

    method DecodeGroup81(ghost w: seq<int>) returns (stop: bool)
      requires Ready() && w == Window(core.mem, PC)
      modifies this
      ensures Ready() && View() == Outcome(old(View()), Group81(w))
      ensures stop == (Group81(w).i.Illegal? || Group81(w).i.Trap?)
    {
      hide Outcome, CoreOk, Window, Holds, Imm, Below;
      ghost var base := PC;
      stop := false;
      var op3 := ReadNibble(PC + 2, w, base);
      match op3 {
        case 0 => Simple(3, Shl(RA, W_FIELD, true));
        case 1 => Simple(3, Shl(RB, W_FIELD, true));
        case 2 => Simple(3, Shl(RC, W_FIELD, true));
        case 3 => Simple(3, Shl(RD, W_FIELD, true));
        case 4 => Simple(3, Shr(RA, W_FIELD, true));
        case 5 => Simple(3, Shr(RB, W_FIELD, true));
        case 6 => Simple(3, Shr(RC, W_FIELD, true));
        case 7 => Simple(3, Shr(RD, W_FIELD, true));
        case 8 => DecodeConstant(w);
        case 9 => DecodeShiftBit(w);
        case 10 => stop := DecodeScratchField(w);
        case 11 => stop := DecodePcGroup(w);
        case 12 => Simple(3, ShrBit(RA, W_FIELD));
        case 13 => Simple(3, ShrBit(RB, W_FIELD));
        case 14 => Simple(3, ShrBit(RC, W_FIELD));
        case _ => Simple(3, ShrBit(RD, W_FIELD));
      }
    }

    method DecodeGroup8(ghost w: seq<int>) returns (stop: bool)
      requires Ready() && w == Window(core.mem, PC)
      modifies this
      ensures Ready() && View() == Outcome(old(View()), Group8(w))
      ensures stop == (Group8(w).i.Illegal? || Group8(w).i.Trap?)
    {
      hide Outcome, CoreOk, Window, Holds, Imm, Below, Group80, Group81, EqualGroup, OrderGroup, Signed;
      ghost var base := PC;
      stop := false;
      var op2 := ReadNibble(PC + 1, w, base);
      match op2 {
        case 0 => stop := DecodeGroup80(w);
        case 1 => stop := DecodeGroup81(w);
        case 2 => var op3 := ReadNibble(PC + 2, w, base); Simple(3, ClearHst(op3));
        case 3 =>
          var op3 := ReadNibble(PC + 2, w, base);
          Conditional(Holds(core, StatusClear(op3)), 3, w, StatusClear(op3));
        case 4 => var op3 := ReadNibble(PC + 2, w, base); Simple(3, SetSt(op3, 0));
        case 5 => var op3 := ReadNibble(PC + 2, w, base); Simple(3, SetSt(op3, 1));
        case 6 => var op3 := ReadNibble(PC + 2, w, base); Conditional(Holds(core, StIs(op3, 0)), 3, w, StIs(op3, 0));
        case 7 => var op3 := ReadNibble(PC + 2, w, base); Conditional(Holds(core, StIs(op3, 1)), 3, w, StIs(op3, 1));
        case 8 =>
          var op3 := ReadNibble(PC + 2, w, base);
          PIsHolds(core, op3);
          Conditional(core.P != op3, 3, w, PIs(op3, false));
        case 9 =>
          var op3 := ReadNibble(PC + 2, w, base);
          PIsHolds(core, op3);
          Conditional(core.P == op3, 3, w, PIs(op3, true));
        case 10 =>
          var op3 := ReadNibble(PC + 2, w, base);
          var z := EqualTest(op3, A_FIELD);
          Conditional(z, 3, w, EqualGroup(op3, A_FIELD));
        case 11 =>
          var op3 := ReadNibble(PC + 2, w, base);
          var z := OrderTest(op3, A_FIELD);
          Conditional(z, 3, w, OrderGroup(op3, A_FIELD));
        case 12 => var op3 := ReadNibbles(PC + 2, 4, w, base); Goto(SignExtend(op3, 4) + 2, 6);
        case 13 => var op3 := ReadNibbles(PC + 2, 5, w, base); GotoAbsolute(op3, 7);
        case 14 => var op3 := ReadNibbles(PC + 2, 4, w, base); Gosub(SignExtend(op3, 4) + 6, 6);
        case _ => var op3 := ReadNibbles(PC + 2, 5, w, base); GosubAbsolute(op3, 7);
      }
    }

    /** A pointer moved by a constant. */
    method MovePointer(op2: int, ghost w: seq<int>)
      requires Ready() && w == Window(core.mem, PC) && op2 == w[1] && (6 <= op2 <= 8 || op2 == 12)
      modifies this
      ensures Ready() && View() == Outcome(old(View()), Group1(w))
    {
      hide Outcome, CoreOk, Window, Holds, Imm, Below;
      ghost var base := PC;
      match op2 {
        case 6 => var op3 := ReadNibble(PC + 2, w, base); Simple(3, AddD(0, op3 + 1));
        case 7 => var op3 := ReadNibble(PC + 2, w, base); Simple(3, AddD(1, op3 + 1));
        case 8 => var op3 := ReadNibble(PC + 2, w, base); Simple(3, AddD(0, -(op3 + 1)));
        case _ => var op3 := ReadNibble(PC + 2, w, base); Simple(3, AddD(1, -(op3 + 1)));
      }
    }

    /** Low nibbles of a pointer loaded. */
    method LoadPointer(op2: int, ghost w: seq<int>)
      requires Ready() && w == Window(core.mem, PC) && op2 == w[1] && (9 <= op2 <= 11 || 13 <= op2 <= 15)
      modifies this
      ensures Ready() && View() == Outcome(old(View()), Group1(w))
    {
      hide Outcome, CoreOk, Window, Holds, Imm, Below;
      ghost var base := PC;
      match op2 {
        case 9 => var v := ReadDigits(PC + 2, 2, w, base); Simple(4, LoadD(0, v));
        case 10 => var v := ReadDigits(PC + 2, 4, w, base); Simple(6, LoadD(0, v));
        case 11 => var v := ReadDigits(PC + 2, 5, w, base); Simple(7, LoadD(0, v));
        case 13 => var v := ReadDigits(PC + 2, 2, w, base); Simple(4, LoadD(1, v));
        case 14 => var v := ReadDigits(PC + 2, 4, w, base); Simple(6, LoadD(1, v));
        case _ => var v := ReadDigits(PC + 2, 5, w, base); Simple(7, LoadD(1, v));
      }
    }

    /** Pointer arithmetic and pointer constants. */
    method DecodePointers(op2: int, ghost w: seq<int>)
      requires Ready() && w == Window(core.mem, PC) && op2 == w[1] >= 6
      modifies this
      ensures Ready() && View() == Outcome(old(View()), Group1(w))
    {
      assert op2 < 16;
      hide Outcome, CoreOk, Window, Group1;
      if 6 <= op2 <= 8 || op2 == 12 { MovePointer(op2, w); } else { LoadPointer(op2, w); }
    }

    method DecodeGroup1(ghost w: seq<int>) returns (stop: bool)
      requires Ready() && w == Window(core.mem, PC)
      modifies this
      ensures Ready() && View() == Outcome(old(View()), Group1(w))
      ensures stop == (Group1(w).i.Illegal? || Group1(w).i.Trap?)
    {
      hide Outcome, CoreOk, Window, Holds, Imm, Below, ScratchGroup, PointerGroup, TransferGroup, TransferNGroup;
      ghost var base := PC;
      stop := false;
      var op2 := ReadNibble(PC + 1, w, base);
      match op2 {
        case 0 => var op3 := ReadNibble(PC + 2, w, base); ToScratchOp(3, op3, W_FIELD);
        case 1 => var op3 := ReadNibble(PC + 2, w, base); FromScratchOp(3, op3, W_FIELD);
        case 2 => var op3 := ReadNibble(PC + 2, w, base); ExchScratchOp(3, op3, W_FIELD);
        case 3 => var op3 := ReadNibble(PC + 2, w, base); PointerOp(3, op3);
        case 4 =>
          var op3 := ReadNibble(PC + 2, w, base);
          TransferIsLegal(op3, if op3 < 8 then 0xf else 6, 0);
          TransferOp(3, op3, if op3 < 8 then 0xf else 6);
        case 5 =>
          var op3 := ReadNibble(PC + 2, w, base);
          var op4 := ReadNibble(PC + 3, w, base);
          TransferIsLegal(op3, op4, op4 + 1);
          if op3 >= 8 { TransferNOp(4, op3, op4 + 1); } else { TransferOp(4, op3, op4); }
        case _ => DecodePointers(op2, w);
      }
    }

    method DecodeGroup0(ghost w: seq<int>) returns (stop: bool)
      requires Ready() && w == Window(core.mem, PC)
      modifies this
      ensures Ready() && View() == Outcome(old(View()), Group0(w))
      ensures stop == (Group0(w).i.Illegal? || Group0(w).i.Trap?)
    {
      hide Outcome, CoreOk, Window, Holds, Imm, Below, LogicGroup;
      ghost var base := PC;
      stop := false;
      var op1 := ReadNibble(PC + 1, w, base);
      match op1 {
        case 0 => Return(true, None);
        case 1 => Return(false, None);
        case 2 => Return(false, Some(1));
        case 3 => Return(false, Some(0));
        case 4 => Simple(2, SetMode(HEX));
        case 5 => Simple(2, SetMode(DEC));
        case 6 => PushC();
        case 7 => PopC();
        case 8 => Simple(2, ClearSt);
        case 9 => Simple(2, StToC);
        case 10 => Simple(2, CToSt);
        case 11 => Simple(2, SwapSt);
        case 12 => Simple(2, StepP(true));
        case 13 => Simple(2, StepP(false));
        case 14 =>
          var op2 := ReadNibble(PC + 2, w, base);
          var op3 := ReadNibble(PC + 3, w, base);
          LogicGroupOp(4, op3, op2);
        case _ => ReturnInterrupt();
      }
    }

    method DecodeGroup6(ghost w: seq<int>) returns (stop: bool)
      requires Ready() && w == Window(core.mem, PC)
      modifies this
      ensures Ready() && View() == Outcome(old(View()), Group6(w))
      ensures stop == (Group6(w).i.Illegal? || Group6(w).i.Trap?)
    {
      hide CoreOk, Window, Imm, Signed;
      ghost var base := PC;
      var op2 := ReadNibbles(PC + 1, 3, w, base);
      if op2 == 0x003 {
        PC := PC + 4;
      } else if op2 == 0x004 {
        var op3 := ReadNibble(PC + 4, w, base);
        PC := PC + 5;
        if op3 != 0 { return true; }
      } else {
        PC := (SignExtend(op2, 3) + PC + 1) % 0x100000;
      }
      return false;
    }

    /** GOC and GONC; GOC with displacement 2 is the three-nibble no-operation. */
    method DecodeGroup45(carry: bool, ghost w: seq<int>)
      requires Ready() && w == Window(core.mem, PC) && w[0] == if carry then 4 else 5
      modifies this
      ensures Ready() && View() == Outcome(old(View()), DecodeAt(w))
    {
      assert core.CARRY == 0 || core.CARRY == 1;
      hide CoreOk, Window, Imm, Signed;
      ghost var base := PC;
      var op2 := ReadNibbles(PC + 1, 2, w, base);
      if carry && op2 == 0x02 {
        PC := PC + 3;
      } else if (core.CARRY != 0) == carry {
        if op2 != 0 {
          PC := (PC + SignExtend(op2, 2) + 1) % 0x100000;
        } else {
          var a := PopReturnAddr();
          PC := a;
        }
      } else {
        PC := PC + 3;
      }
    }

    method Decode8ThruF(op1: int, ghost w: seq<int>) returns (stop: bool)
      requires Ready() && w == Window(core.mem, PC) && op1 == w[0] >= 8
      modifies this
      ensures Ready() && View() == Outcome(old(View()), DecodeAt(w))
      ensures stop == (DecodeAt(w).i.Illegal? || DecodeAt(w).i.Trap?)
    {
      hide Outcome, CoreOk, Window, Holds, Imm, Below;
      hide Group8, AddGroup, CopyGroup, SubGroup, ShiftGroup, EqualGroup, OrderGroup;
      ghost var base := PC;
      var op2 := ReadNibble(PC + 1, w, base);
      stop := false;
      if op1 == 8 {
        stop := DecodeGroup8(w);
      } else if op1 <= 0xb {
        var op3 := ReadNibble(PC + 2, w, base);
        if op1 == 9 {
          if op2 < 8 {
            var z := EqualTest(op3, op2);
            Conditional(z, 3, w, EqualGroup(op3, op2));
          } else {
            var z := OrderTest(op3, op2 % 8);
            Conditional(z, 3, w, OrderGroup(op3, op2 % 8));
          }
        } else {
          if op1 == 0xa {
            if op2 < 8 { AddGroupOp(3, op3, op2); } else { CopyGroupOp(3, op3, op2 % 8); }
          } else {
            if op2 < 8 { SubGroupOp(3, op3, op2); } else { ShiftGroupOp(3, op3, op2 % 8); }
          }
        }
      } else {
        match op1 {
          case 0xc => AddGroupOp(2, op2, A_FIELD);
          case 0xd => CopyGroupOp(2, op2, A_FIELD);
          case 0xe => SubGroupOp(2, op2, A_FIELD);
          case _ => ShiftGroupOp(2, op2, A_FIELD);
        }
      }
    }

    method StepSwitch(ghost w: seq<int>) returns (stop: bool)
      requires Ready() && w == Window(core.mem, PC)
      modifies this
      ensures Ready() && View() == Outcome(old(View()), DecodeAt(w))
      ensures stop == (DecodeAt(w).i.Illegal? || DecodeAt(w).i.Trap?)
    {
      hide Outcome, CoreOk, Window, Imm, Signed, Group0, Group1, Group6, Group8, Below;
      ghost var base := PC;
      stop := false;
      var op0 := ReadNibble(PC, w, base);
      match op0 {
        case 0 => stop := DecodeGroup0(w);
        case 1 => stop := DecodeGroup1(w);
        case 2 => var op2 := ReadNibble(PC + 1, w, base); Simple(2, SetP(op2));
        case 3 =>
          var op2 := ReadNibble(PC + 1, w, base);
          var v := ReadDigits(PC + 2, op2 + 1, w, base);
          Simple(3 + op2, LoadReg(RC, v));
        case 4 => DecodeGroup45(true, w);
        case 5 => DecodeGroup45(false, w);
        case 6 => stop := DecodeGroup6(w);
        case 7 =>
          var op2 := ReadNibbles(PC + 1, 3, w, base);
          Gosub(SignExtend(op2, 3) + 4, 4);
        case _ => stop := Decode8ThruF(op0, w);
      }
    }

    /** One instruction; the answer is whether the emulator must stop. */
    method StepInstruction() returns (stop: bool)
      requires Ready()
      modifies this
      ensures Ready() && (View(), stop) == StepOf(old(View()))
    {
      CoreMem(core);
      ghost var w := Window(core.mem, PC);
      assert Fetch(View()) == DecodeAt(w) by { hide CoreOk, DecodeAt, Window; }
      hide CoreOk, Window, DecodeAt, Exec;
      stop := StepSwitch(w);
    }
  }
}
