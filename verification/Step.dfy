/**
 One instruction step: fetch, decode and execute.  The invariant survives every run, the two
 undecodable families stop the machine without touching it, and program counters that agree
 modulo 2^20 are indistinguishable.
 */
module Step {
  import opened Wrappers
  import opened Digits
  import opened Fields
  import opened DaisyChain
  import opened Memory
  import opened ReturnStack
  import opened Interrupts
  import opened Instructions
  import opened Machine

  const CARD_CONTROL := 0x10e

  ghost predicate CondOk(t: Cond)
  {
    match t
    case StatusClear(mask) => mask < 16
    case StIs(n, val) => n < 16 && 0 <= val <= 1
    case PIs(n, _) => n < 16
    case BitIs(_, n, val) => n < 16 && 0 <= val <= 1
    case Equal(_, _, f, _) => f < 19
    case Zero(_, f, _) => f < 19
    case Order(_, _, f, rel) => f < 19 && rel < 4
  }

  ghost predicate InstrOk(i: Instr)
  {
    match i
    case Simple(d) => DataOk(d)
    case Return(_, carry) => carry.Some? ==> 0 <= carry.value <= 1
    case Store(d, _, f) => d < 2 && f < 19
    case StoreN(d, _, n) => d < 2 && n <= 16
    case JumpCarry(on, _) => 0 <= on <= 1
    case Test(t, _) => CondOk(t)
    case _ => true
  }

  /** The decoder produces operands in range, whatever the nibbles. */
  lemma DecodeOk(w: seq<int>)
    requires Nibbles(w)
    ensures InstrOk(DecodeAt(w).i)
  {
    assert 0 <= w[0] < 16 && 0 <= w[1] < 16 && 0 <= w[2] < 16;
    hide Group0, Group1, Group6, Group8, Imm, Signed, EqualGroup, OrderGroup, AddGroup, CopyGroup, SubGroup, ShiftGroup;
    hide CondOk, DataOk, InstrOk, Inline;
    if w[0] == 0 {
      Group0Ok(w);
    } else if w[0] == 1 {
      Group1Ok(w);
    } else if w[0] < 8 {
      ShortsOk(w);
    } else if w[0] == 8 {
      Group8Ok(w);
    } else if w[0] == 9 {
      TestGroupsOk(w[2], w[1] % 8);
      TestOk(if w[1] < 8 then EqualGroup(w[2], w[1]) else OrderGroup(w[2], w[1] % 8), Imm(w, 3, 2));
    } else {
      var k, f := if w[0] < 12 then w[2] else w[1], if w[0] < 12 then w[1] % 8 else A_FIELD;
      GroupsOk(k, f);
      ArithmeticOk(w, k, f);
    }
  }

  lemma TestOk(t: Cond, off: int)
    requires CondOk(t)
    ensures InstrOk(Test(t, off))
  {
    hide CondOk;
  }

  lemma InlineOk(d: Data, len: nat)
    requires DataOk(d)
    ensures InstrOk(Inline(d, len).i)
  {
    hide DataOk;
  }

  lemma ArithmeticOk(w: seq<int>, k: nat, f: nat)
    requires Nibbles(w) && w[0] >= 10 && k == (if w[0] < 12 then w[2] else w[1])
    requires f == if w[0] < 12 then w[1] % 8 else A_FIELD
    requires DataOk(AddGroup(k, f)) && DataOk(CopyGroup(k, f)) && DataOk(SubGroup(k, f)) && DataOk(ShiftGroup(k, f))
    ensures InstrOk(DecodeAt(w).i)
  {
    hide AddGroup, CopyGroup, SubGroup, ShiftGroup, DataOk, InstrOk, Inline, Group0, Group1, Group6, Group8;
    hide Imm, Signed;
    var n := if w[0] < 12 then 3 else 2;
    InlineOk(AddGroup(k, f), n);
    InlineOk(CopyGroup(k, f), n);
    InlineOk(SubGroup(k, f), n);
    InlineOk(ShiftGroup(k, f), n);
  }

  lemma ShortsOk(w: seq<int>)
    requires Nibbles(w) && 2 <= w[0] < 8
    ensures InstrOk(DecodeAt(w).i)
  {
    hide Imm, Signed;
  }

  lemma GroupsOk(k: nat, f: nat)
    requires k < 16 && f < 19
    ensures DataOk(AddGroup(k, f)) && DataOk(CopyGroup(k, f)) && DataOk(SubGroup(k, f)) && DataOk(ShiftGroup(k, f))
  {
  }

  lemma Group0Ok(w: seq<int>)
    requires Nibbles(w)
    ensures InstrOk(Group0(w).i)
  {
  }

  lemma Group1Ok(w: seq<int>)
    requires Nibbles(w)
    ensures InstrOk(Group1(w).i)
  {
  }

  lemma Group80Ok(w: seq<int>)
    requires Nibbles(w)
    ensures InstrOk(Group80(w).i)
  {
    hide Imm;
  }

  lemma Group81Ok(w: seq<int>)
    requires Nibbles(w)
    ensures InstrOk(Group81(w).i)
  {
    hide Imm;
  }

  lemma TestGroupsOk(k: nat, f: nat)
    requires k < 16 && f < 19
    ensures CondOk(EqualGroup(k, f)) && CondOk(OrderGroup(k, f))
  {
  }

  lemma Group8Ok(w: seq<int>)
    requires Nibbles(w)
    ensures InstrOk(Group8(w).i)
  {
    hide Group80, Group81, Imm, Signed, EqualGroup, OrderGroup;
    if w[1] == 0 {
      Group80Ok(w);
    } else if w[1] == 1 {
      Group81Ok(w);
    } else {
      TestGroupsOk(w[2], A_FIELD);
    }
  }

  predicate Holds(c: Core, t: Cond)
    requires CoreOk(c) && CondOk(t)
  {
    match t
    case StatusClear(mask) =>
      (Bit(mask, 0) == 1 ==> c.XM == 0) && (Bit(mask, 1) == 1 ==> c.SB == 0) &&
      (Bit(mask, 2) == 1 ==> c.SR == 0) && (Bit(mask, 3) == 1 ==> c.MP == 0)
    case StIs(n, val) => c.ST[n] == val
    case PIs(n, eq) => (c.P == n) == eq
    case BitIs(r, n, val) => Bit(Get(c, r)[n / 4], n % 4) == val
    case Equal(a, b, f, eq) => (FieldOf(c, a, f) == FieldOf(c, b, f)) == eq
    case Zero(a, f, eq) => (FieldOf(c, a, f) == Zeros(|FieldOf(c, a, f)|)) == eq
    case Order(a, b, f, rel) =>
      var x := Compare(FieldOf(c, a, f), FieldOf(c, b, f));
      match rel case 0 => x > 0 case 1 => x < 0 case 2 => x >= 0 case _ => x <= 0
  }

  /** A store by the processor; one to the card-control register can raise MP and interrupt. */
  function StoreNib(s: Saturn, addr: int, v: int): Saturn
    requires CoreOk(s.core)
  {
    var m := Memory.Store(s.core.mem, addr, v);
    if StoreCellOf(s.core.mem, addr) == Cell.Device(CARD_CONTROL) then
      Saturn(s.core.(mem := m, MP := if Bit(Nib(v), 1) == 1 then 1 else s.core.MP),
             if Bit(Nib(v), 0) == 1 then Interrupt(s.flow) else s.flow)
    else Saturn(s.core.(mem := m), s.flow)
  }

  lemma StoreNibOk(s: Saturn, addr: int, v: int)
    requires CoreOk(s.core)
    ensures CoreOk(StoreNib(s, addr, v).core)
    ensures Ok(s) ==> Ok(StoreNib(s, addr, v))
  {
    StoreKeepsOk(s.core.mem, addr, v);
    hide MemOk, Memory.Store, Below;
  }

  function PutNib(s: Saturn, addr: int, v: int): (r: Saturn)
    requires CoreOk(s.core)
    ensures CoreOk(r.core) && r == StoreNib(s, addr, v)
  {
    StoreNibOk(s, addr, v);
    StoreNib(s, addr, v)
  }

  function StoreRun(s: Saturn, addr: int, v: seq<int>): (r: Saturn)
    requires CoreOk(s.core)
    ensures CoreOk(r.core)
    decreases |v|
  {
    if v == [] then s
    else
      hide *;
      var p := StoreRun(s, addr, v[..|v| - 1]);
      PutNib(p, addr + |v| - 1, v[|v| - 1])
  }

  function Advance(f: Flow, n: int): Flow { f.(pc := f.pc + n) }

  function Goto(f: Flow, disp: int): Flow { f.(pc := (f.pc + disp) % ADDR_SPACE) }

  function PopTo(f: Flow): Flow
  {
    var (s, a) := Pop(f.stack);
    f.(pc := a, stack := s)
  }

  /** The short branches: a zero displacement returns instead. */
  function Branch(f: Flow, base: int, off: int): Flow
  {
    if off == 0 then PopTo(f) else Goto(f, base + Signed(off, 2))
  }

  function Exec(s: Saturn, op: Opcode): Saturn
    requires CoreOk(s.core) && InstrOk(op.i)
  {
    var c, f := s.core, s.flow;
    var next := Advance(f, op.len);
    match op.i
    case Illegal => s
    case Trap => Saturn(c, next)
    case Nop => Saturn(c, next)
    case Simple(d) => Saturn(DataStep(c, d), next)
    case Return(xm, carry) =>
      Saturn(c.(XM := if xm then 1 else c.XM, CARRY := if carry.Some? then carry.value else c.CARRY), PopTo(f))
    case ReturnInt => Saturn(c, Rti(f))
    case PushC => Saturn(c, next.(stack := Push(f.stack, Addr(c.C))))
    case PopC =>
      var (st, a) := Pop(f.stack);
      Saturn(c.(C := Low(c.C, Split(a, 16, 5))), next.(stack := st))
    case Store(d, src, fld) => StoreRun(Saturn(c, next), GetD(c, d), FieldOf(c, src, fld))
    case StoreN(d, src, n) => StoreRun(Saturn(c, next), GetD(c, d), Get(c, src)[..n])
    case Jump(disp) => Saturn(c, Goto(f, disp))
    case JumpTo(a) => Saturn(c, f.(pc := a))
    case Call(disp) => Saturn(c, Goto(f, disp).(stack := Push(f.stack, f.pc + op.len)))
    case CallTo(a) => Saturn(c, f.(pc := a, stack := Push(f.stack, f.pc + op.len)))
    case JumpCarry(on, off) => Saturn(c, if c.CARRY == on then Branch(f, 1, off) else next)
    case Test(t, off) =>
      if Holds(c, t) then Saturn(c.(CARRY := 1), Branch(f, op.len - 2, off))
      else Saturn(c.(CARRY := 0), next)
    case JumpInd(r) =>
      var (m, v) := LoadDown(c.mem, Addr(Get(c, r)), 5);
      Saturn(c.(mem := m), f.(pc := Value(v, 16)))
    case JumpReg(r) => Saturn(c, f.(pc := Addr(Get(c, r))))
    case RegFromPc(r) => Saturn(Set(c, r, Low(Get(c, r), Split(next.pc, 16, 5))), next)
    case ExchPc(r) =>
      Saturn(Set(c, r, Low(Get(c, r), Split(next.pc, 16, 5))), f.(pc := Addr(Get(c, r))))
    case ResetInt =>
      Saturn(c.(kbdIen := true), if exists i :: 0 <= i < 9 && c.rows[i] != 0 then KbdInt(next) else next)
  }

  /** The same for whatever the switches of the interpreter come to. */
  ghost function Outcome(s: Saturn, op: Opcode): Saturn
    requires CoreOk(s.core)
  {
    if InstrOk(op.i) then Exec(s, op) else s
  }

  /** The nibbles at and after an address. */
  function Window(m: Mem, pc: int): (w: seq<int>)
    requires MemOk(m)
    ensures Nibbles(w)
  {
    WindowBelow(m, pc);
    LoadAll(m, pc, WINDOW)
  }

  lemma {:induction false} LoadAllBelow(m: Mem, addr: int, n: nat)
    requires MemOk(m)
    ensures Below(LoadAll(m, addr, n), 16)
  {
    hide Load, MemOk;
    if n > 0 {
      LoadAllBelow(m, addr, n - 1);
      LoadKeepsOk(m, addr + n - 1);
      BelowSnoc(LoadAll(m, addr, n - 1), Load(m, addr + n - 1).1, 16);
    }
  }

  lemma WindowBelow(m: Mem, pc: int)
    requires MemOk(m)
    ensures Below(LoadAll(m, pc, WINDOW), 16)
  {
    LoadAllBelow(m, pc, WINDOW);
  }

  function Fetch(s: Saturn): (op: Opcode)
    requires CoreOk(s.core)
    ensures InstrOk(op.i)
  {
    hide *;
    CoreMem(s.core);
    DecodeOk(Window(s.core.mem, s.flow.pc));
    DecodeAt(Window(s.core.mem, s.flow.pc))
  }

  /** Code that lies in still cells can be fetched in any order, and more than once, without effect. */
  lemma FetchIsStill(m: Mem, pc: int)
    requires MemOk(m) && forall i :: 0 <= i < WINDOW ==> StillAt(m, pc, i)
    ensures LoadDown(m, pc, WINDOW) == (m, Window(m, pc))
  {
    hide Window, MemOk;
    StillDown(m, pc, WINDOW);
    WindowIs(m, pc);
  }

  lemma WindowIs(m: Mem, pc: int)
    requires MemOk(m)
    ensures Window(m, pc) == LoadAll(m, pc, WINDOW)
  {
  }

  predicate StillAt(m: Mem, pc: int, i: int)
    requires Mapped(m)
  {
    Still(CellOf(m, pc + i))
  }

  lemma StillNext(m: Mem, pc: int, n: nat)
    requires MemOk(m) && Load(m, pc + n).0 == m && LoadDown(m, pc, n) == (m, LoadAll(m, pc, n))
    ensures LoadDown(m, pc, n + 1) == (m, LoadAll(m, pc, n + 1))
  {
    hide Load, MemOk;
    LoadDownNext(m, pc, n);
    hide LoadDown;
  }

  lemma StillNone(m: Mem, pc: int)
    requires MemOk(m)
    ensures LoadDown(m, pc, 0) == (m, LoadAll(m, pc, 0))
  {
    hide MemOk;
  }

  lemma MemIsMapped(m: Mem)
    requires MemOk(m)
    ensures Mapped(m)
  {
  }

  lemma {:induction false} StillDown(m: Mem, pc: int, n: nat)
    requires MemOk(m) && forall i :: 0 <= i < n ==> StillAt(m, pc, i)
    ensures LoadDown(m, pc, n) == (m, LoadAll(m, pc, n))
    decreases n
  {
    hide CellOf, Load, MemOk, Mapped, LoadDown, LoadAll;
    MemIsMapped(m);
    if n == 0 {
      StillNone(m, pc);
    } else {
      assert StillAt(m, pc, n - 1);
      StillLoads(m, pc + n - 1);
      StillDown(m, pc, n - 1);
      StillNext(m, pc, n - 1);
    }
  }

  lemma CoreMem(c: Core)
    requires CoreOk(c)
    ensures MemOk(c.mem)
  {
  }

  /** One step: the new state, and whether the emulator is told to stop. */
  function StepOf(s: Saturn): (Saturn, bool)
    requires CoreOk(s.core)
  {
    var op := Fetch(s);
    (Exec(s, op), op.i.Illegal? || op.i.Trap?)
  }

  // ------------------------------------------------------------ the machine invariant

  lemma {:induction false} StoreRunKeepsOk(s: Saturn, addr: int, v: seq<int>)
    requires Ok(s)
    ensures Ok(StoreRun(s, addr, v))
    decreases |v|
  {
    if v != [] {
      StoreRunKeepsOk(s, addr, v[..|v| - 1]);
      StoreNibOk(StoreRun(s, addr, v[..|v| - 1]), addr + |v| - 1, v[|v| - 1]);
      hide CoreOk, StoreNib;
    }
  }

  lemma PcToRegOk(c: Core, r: Reg, x: int)
    requires CoreOk(c)
    ensures CoreOk(Set(c, r, Low(Get(c, r), Split(x, 16, 5))))
  {
    hide MemOk;
    SplitBelow(x, 16, 5);
    LowOk(Get(c, r), Split(x, 16, 5), 16);
    SetOk(c, r, Low(Get(c, r), Split(x, 16, 5)));
  }

  lemma LoadDownOk(m: Mem, addr: int, n: nat)
    requires MemOk(m)
    ensures MemOk(LoadDown(m, addr, n).0)
    decreases n
  {
    if n > 0 { LoadDownOk(LoadOk(m, addr + n - 1).0, addr, n - 1); }
  }

  lemma JumpIndOk(c: Core, addr: int)
    requires CoreOk(c)
    ensures CoreOk(c.(mem := LoadDown(c.mem, addr, 5).0))
  {
    LoadDownOk(c.mem, addr, 5);
    hide MemOk, LoadDown;
  }

  lemma ExecKeepsOk(s: Saturn, op: Opcode)
    requires Ok(s) && InstrOk(op.i)
    ensures Ok(Exec(s, op))
  {
    hide MemOk, DataStep, LoadDown, StoreRun, Holds, DataOk, CondOk, Low, Set, FieldOf, Signed;
    match op.i
    case Simple(d) => DataKeepsOk(s.core, d);
    case Store(d, src, fld) =>
      StoreRunKeepsOk(Saturn(s.core, Advance(s.flow, op.len)), GetD(s.core, d), FieldOf(s.core, src, fld));
    case StoreN(d, src, n) =>
      StoreRunKeepsOk(Saturn(s.core, Advance(s.flow, op.len)), GetD(s.core, d), Get(s.core, src)[..n]);
    case PopC =>
      PcToRegOk(s.core, RC, Pop(s.flow.stack).1);
      SetIsC(s.core, Low(s.core.C, Split(Pop(s.flow.stack).1, 16, 5)));
    case RegFromPc(r) => PcToRegOk(s.core, r, s.flow.pc + op.len);
    case ExchPc(r) => PcToRegOk(s.core, r, s.flow.pc + op.len);
    case JumpInd(r) => JumpIndOk(s.core, Addr(Get(s.core, r)));
    case _ =>
  }

  lemma SetIsC(c: Core, v: seq<int>)
    ensures Set(c, RC, v) == c.(C := v)
  {
  }

  /** Every step keeps the machine invariant. */
  lemma StepKeepsOk(s: Saturn)
    requires Ok(s)
    ensures Ok(StepOf(s).0)
  {
    hide Exec, Fetch, CoreOk;
    ExecKeepsOk(s, Fetch(s));
  }

  /** What happens to the machine between and during instructions. */
  datatype Event =
    | Tick                          // one instruction
    | Keys(rows: seq<bv16>)         // the keyboard matrix changes
    | KeyInt                        // a keyboard interrupt
    | DeviceInt                     // a timer or serial interrupt
    | Wake                          // SHUTDN takes effect
    | Register(o: nat, v: int)      // a device changes one of its own register nibbles

  function Happen(s: Saturn, e: Event): Saturn
    requires CoreOk(s.core)
  {
    match e
    case Tick => StepOf(s).0
    case Keys(rows) => if |rows| == 9 then s.(core := s.core.(rows := rows)) else s
    case KeyInt => s.(flow := KbdInt(s.flow))
    case DeviceInt => s.(flow := Interrupt(s.flow))
    case Wake => Saturn(s.core.(shutdown := false), Shutdown(s.flow, Value(s.core.OUT, 16) == 0))
    case Register(o, v) =>
      if o < 0x40 && 0 <= v < 16 then
        s.(core := s.core.(mem := s.core.mem.(dev := s.core.mem.dev.(raw := s.core.mem.dev.raw[o := v]))))
      else s
  }

  lemma HappenKeepsOk(s: Saturn, e: Event)
    requires Ok(s)
    ensures Ok(Happen(s, e))
  {
    if e.Tick? {
      StepKeepsOk(s);
    } else {
      hide StepOf;
    }
  }

  function HappenOk(s: Saturn, e: Event): (r: Saturn)
    requires Ok(s)
    ensures Ok(r) && r == Happen(s, e)
  {
    HappenKeepsOk(s, e);
    Happen(s, e)
  }

  /** The states along a run; that it is defined at all is the invariant of every run. */
  function Run(s: Saturn, es: seq<Event>): (r: Saturn)
    requires Ok(s)
    ensures Ok(r)
    decreases |es|
  {
    if es == [] then s
    else
      hide *;
      HappenOk(Run(s, es[..|es| - 1]), es[|es| - 1])
  }

  /** The machine stops exactly on the undecodable patterns and on NOP5, the former unchanged. */
  lemma StopsExactly(s: Saturn)
    requires Ok(s)
    ensures var w := Window(s.core.mem, s.flow.pc);
            var (t, stop) := StepOf(s);
            var undecodable := w[0] == 8 && w[1] == 1 &&
                               ((w[2] == 10 && w[4] > 2) || (w[2] == 11 && !(2 <= w[3] <= 7)));
            var nop5 := w[0] == 6 && Imm(w, 1, 3) == 4 && w[4] != 0;
            (stop <==> undecodable || nop5) && (undecodable ==> t == s) &&
            (nop5 ==> t == s.(flow := Advance(s.flow, 5)))
  {
    var w := Window(s.core.mem, s.flow.pc);
    FetchIsDecode(s);
    IllegalExactly(w);
    TrapExactly(w);
    hide CoreOk, DecodeAt, Fetch, Window, Imm, DataStep, StoreRun, Holds;
  }

  lemma FetchIsDecode(s: Saturn)
    requires Ok(s)
    ensures Fetch(s) == DecodeAt(Window(s.core.mem, s.flow.pc))
  {
    hide CoreOk, DecodeAt, Window;
  }

  lemma TrapExactly(w: seq<int>)
    requires Nibbles(w)
    ensures DecodeAt(w).i == Trap <==> w[0] == 6 && Imm(w, 1, 3) == 4 && w[4] != 0
    ensures DecodeAt(w).i == Trap ==> DecodeAt(w).len == 5
  {
    hide Imm, Signed;
  }

  // -------------------------------------------------- only 20 bits of the PC matter

  predicate SameLow(x: int, y: int) { x % ADDR_SPACE == y % ADDR_SPACE }

  ghost predicate SameLows(a: seq<int>, b: seq<int>)
  {
    |a| == |b| && forall i :: 0 <= i < |a| ==> SameLow(a[i], b[i])
  }

  /** The same machine up to multiples of 2^20 in the program counter and the stacked addresses. */
  ghost predicate Cong(f: Flow, g: Flow)
  {
    SameLow(f.pc, g.pc) && SameLows(f.stack, g.stack) && f.enabled == g.enabled && f.pending == g.pending
  }

  lemma SameLowAdd(x: int, y: int, n: int)
    requires SameLow(x, y)
    ensures SameLow(x + n, y + n) && (x + n) % ADDR_SPACE == (y + n) % ADDR_SPACE
  {
    assert x == ADDR_SPACE * (x / ADDR_SPACE) + x % ADDR_SPACE;
    assert y == ADDR_SPACE * (y / ADDR_SPACE) + y % ADDR_SPACE;
  }

  lemma SplitShift(v: int, z: int)
    ensures (v + 16 * z) % 16 == v % 16 && (v + 16 * z) / 16 == v / 16 + z
  {
  }

  /** The low n digits do not see multiples of 16^n. */
  lemma {:induction false} SplitLow(v: int, q: int, n: nat)
    ensures Split(v + Pow(16, n) * q, 16, n) == Split(v, 16, n)
    decreases n
  {
    if n > 0 {
      Associate(16, Pow(16, n - 1), q);
      SplitShift(v, Pow(16, n - 1) * q);
      SplitLow(v / 16, q, n - 1);
    }
  }

  lemma SameLowSplit(x: int, y: int)
    requires SameLow(x, y)
    ensures Split(x, 16, 5) == Split(y, 16, 5)
  {
    Pow16(5);
    var q := x / ADDR_SPACE - y / ADDR_SPACE;
    assert x == y + ADDR_SPACE * q;
    SplitLow(y, q, 5);
  }

  lemma {:induction false} SameLowLoads(m: Mem, x: int, y: int, n: nat)
    requires MemOk(m) && SameLow(x, y)
    ensures LoadAll(m, x, n) == LoadAll(m, y, n)
  {
    if n > 0 {
      SameLowLoads(m, x, y, n - 1);
      SameLowAdd(x, y, n - 1);
      LoadMasked(m, x + (n - 1), y + (n - 1));
      hide Load, SameLow, MemOk;
    }
  }

  lemma LoadMasked(m: Mem, x: int, y: int)
    requires MemOk(m) && SameLow(x, y)
    ensures Load(m, x) == Load(m, y)
  {
    hide MemOk, LoadCell, SxCell, GxCell;
  }

  lemma SameLowsPush(a: seq<int>, b: seq<int>, x: int, y: int)
    requires SameLows(a, b) && SameLow(x, y)
    ensures SameLows(Push(a, x), Push(b, y))
  {
    hide SameLow;
  }

  lemma SameLowsPop(a: seq<int>, b: seq<int>)
    requires SameLows(a, b)
    ensures SameLows(Pop(a).0, Pop(b).0) && SameLow(Pop(a).1, Pop(b).1)
  {
    hide SameLow;
    assert SameLow(0, 0) by { SameLowRefl(0); }
  }

  lemma SameLowRefl(x: int)
    ensures SameLow(x, x)
  {
  }

  lemma CongAdvance(f: Flow, g: Flow, n: int)
    requires Cong(f, g)
    ensures Cong(Advance(f, n), Advance(g, n)) && Cong(Goto(f, n), Goto(g, n)) && Cong(PopTo(f), PopTo(g))
  {
    SameLowAdd(f.pc, g.pc, n);
    SameLowsPop(f.stack, g.stack);
  }

  lemma CongBranch(f: Flow, g: Flow, base: int, off: int)
    requires Cong(f, g)
    ensures Cong(Branch(f, base, off), Branch(g, base, off))
  {
    CongAdvance(f, g, base + Signed(off, 2));
  }

  lemma CongInterrupts(f: Flow, g: Flow)
    requires Cong(f, g)
    ensures Cong(Interrupt(f), Interrupt(g)) && Cong(KbdInt(f), KbdInt(g)) && Cong(Rti(f), Rti(g))
  {
    SameLowsPush(f.stack, g.stack, f.pc, g.pc);
    SameLowsPop(f.stack, g.stack);
  }

  lemma {:induction false} CongStoreRun(c: Core, f: Flow, g: Flow, addr: int, v: seq<int>)
    requires CoreOk(c) && Cong(f, g)
    ensures StoreRun(Saturn(c, f), addr, v).core == StoreRun(Saturn(c, g), addr, v).core
    ensures Cong(StoreRun(Saturn(c, f), addr, v).flow, StoreRun(Saturn(c, g), addr, v).flow)
    decreases |v|
  {
    if v != [] {
      var n := |v| - 1;
      CongStoreRun(c, f, g, addr, v[..n]);
      var p, q := StoreRun(Saturn(c, f), addr, v[..n]), StoreRun(Saturn(c, g), addr, v[..n]);
      CongInterrupts(p.flow, q.flow);
      hide CoreOk, Cong, Memory.Store, StoreCellOf;
    }
  }

  ghost predicate CongAfter(c: Core, f: Flow, g: Flow, op: Opcode)
    requires CoreOk(c) && InstrOk(op.i)
  {
    var s, t := Exec(Saturn(c, f), op), Exec(Saturn(c, g), op);
    s.core == t.core && Cong(s.flow, t.flow)
  }

  lemma CongStores(c: Core, f: Flow, g: Flow, op: Opcode)
    requires CoreOk(c) && Cong(f, g) && InstrOk(op.i) && (op.i.Store? || op.i.StoreN?)
    ensures CongAfter(c, f, g, op)
  {
    var next, next' := Advance(f, op.len), Advance(g, op.len);
    CongAdvance(f, g, op.len);
    hide Cong, StoreRun;
    match op.i
    case Store(d, src, fld) => CongStoreRun(c, next, next', GetD(c, d), FieldOf(c, src, fld));
    case StoreN(d, src, n) => CongStoreRun(c, next, next', GetD(c, d), Get(c, src)[..n]);
  }

  lemma CongStackMoves(c: Core, f: Flow, g: Flow, op: Opcode)
    requires CoreOk(c) && Cong(f, g) && InstrOk(op.i) && (op.i.PushC? || op.i.PopC?)
    ensures CongAfter(c, f, g, op)
  {
    assert |c.C| == 16;
    hide CoreOk, SameLow, Split, SameLows, Push, DataStep, StoreRun, Holds, Low, Signed, MemOk;
    CongAdvance(f, g, op.len);
    if op.i.PushC? {
      SameLowRefl(Addr(c.C));
      SameLowsPush(f.stack, g.stack, Addr(c.C), Addr(c.C));
    } else {
      SameLowsPop(f.stack, g.stack);
      SameLowSplit(Pop(f.stack).1, Pop(g.stack).1);
    }
  }

  lemma CongCalls(c: Core, f: Flow, g: Flow, op: Opcode)
    requires CoreOk(c) && Cong(f, g) && InstrOk(op.i) && (op.i.Call? || op.i.CallTo?)
    ensures CongAfter(c, f, g, op)
  {
    hide CoreOk, SameLow, SameLows, Push, DataStep, StoreRun, Holds, Low, Signed, MemOk;
    AdvancedPc(f, g, op.len);
    SameLowsPush(f.stack, g.stack, f.pc + op.len, g.pc + op.len);
    if op.i.Call? { CongAdvance(f, g, op.i.disp); } else { SameLowRefl(op.i.addr); }
  }

  lemma AdvancedPc(f: Flow, g: Flow, n: int)
    requires Cong(f, g)
    ensures SameLow(f.pc + n, g.pc + n)
  {
    SameLowAdd(f.pc, g.pc, n);
  }

  /** The instructions that read the program counter, as functions of it. */
  lemma PcMovesAre(c: Core, f: Flow, r: Reg, len: nat)
    requires CoreOk(c)
    ensures |Get(c, r)| == 16
    ensures Exec(Saturn(c, f), Opcode(RegFromPc(r), len)) ==
              Saturn(Set(c, r, Low(Get(c, r), Split(f.pc + len, 16, 5))), Advance(f, len))
    ensures Exec(Saturn(c, f), Opcode(ExchPc(r), len)) ==
              Saturn(Set(c, r, Low(Get(c, r), Split(f.pc + len, 16, 5))), f.(pc := Addr(Get(c, r))))
  {
    assert |Get(c, r)| == 16;
    hide CoreOk, Split, Low, Set, Get, Addr, Holds;
  }

  lemma CongFromPc(c: Core, f: Flow, g: Flow, op: Opcode)
    requires CoreOk(c) && Cong(f, g) && InstrOk(op.i) && op.i.RegFromPc?
    ensures CongAfter(c, f, g, op)
  {
    hide CoreOk, Exec, Cong, SameLow, Split, Low, Set, Get, Addr, Advance;
    CongAdvance(f, g, op.len);
    AdvancedPc(f, g, op.len);
    SameLowSplit(f.pc + op.len, g.pc + op.len);
    PcMovesAre(c, f, op.i.r, op.len);
    PcMovesAre(c, g, op.i.r, op.len);
    assert op == Opcode(RegFromPc(op.i.r), op.len);
  }

  lemma CongExchPc(c: Core, f: Flow, g: Flow, op: Opcode)
    requires CoreOk(c) && Cong(f, g) && InstrOk(op.i) && op.i.ExchPc?
    ensures CongAfter(c, f, g, op)
  {
    hide CoreOk, Exec, SameLow, SameLows, Split, Low, Set, Get, Addr, Advance;
    AdvancedPc(f, g, op.len);
    SameLowSplit(f.pc + op.len, g.pc + op.len);
    PcMovesAre(c, f, op.i.r, op.len);
    PcMovesAre(c, g, op.i.r, op.len);
    SameLowRefl(Addr(Get(c, op.i.r)));
    assert op == Opcode(ExchPc(op.i.r), op.len);
  }

  lemma CongExec(c: Core, f: Flow, g: Flow, op: Opcode)
    requires CoreOk(c) && Cong(f, g) && InstrOk(op.i)
    ensures CongAfter(c, f, g, op)
  {
    match op.i
    case Store(_, _, _) => CongStores(c, f, g, op);
    case StoreN(_, _, _) => CongStores(c, f, g, op);
    case PushC => CongStackMoves(c, f, g, op);
    case PopC => CongStackMoves(c, f, g, op);
    case Call(_) => CongCalls(c, f, g, op);
    case CallTo(_) => CongCalls(c, f, g, op);
    case RegFromPc(_) => CongFromPc(c, f, g, op);
    case ExchPc(_) => CongExchPc(c, f, g, op);
    case Jump(_) => CongJumps(c, f, g, op);
    case JumpTo(_) => CongJumps(c, f, g, op);
    case JumpCarry(_, _) => CongTests(c, f, g, op);
    case Test(_, _) => CongTests(c, f, g, op);
    case JumpInd(_) => CongJumps(c, f, g, op);
    case JumpReg(_) => CongJumps(c, f, g, op);
    case _ => CongRest(c, f, g, op);
  }

  lemma CongJumps(c: Core, f: Flow, g: Flow, op: Opcode)
    requires CoreOk(c) && Cong(f, g) && InstrOk(op.i)
    requires op.i.Jump? || op.i.JumpTo? || op.i.JumpInd? || op.i.JumpReg?
    ensures CongAfter(c, f, g, op)
  {
    hide MemOk, DataStep, LoadDown, Holds, SameLow, SameLows, Branch, Interrupt, KbdInt, Rti, StoreRun;
    hide Low, Split, Signed, Value, Set, GetD, FieldOf, Push, Pop;
    match op.i
    case Jump(disp) => CongAdvance(f, g, disp);
    case JumpTo(a) => SameLowRefl(a);
    case JumpInd(r) => SameLowRefl(Value(LoadDown(c.mem, Addr(Get(c, r)), 5).1, 16));
    case JumpReg(r) => SameLowRefl(Addr(Get(c, r)));
  }

  lemma CongTests(c: Core, f: Flow, g: Flow, op: Opcode)
    requires CoreOk(c) && Cong(f, g) && InstrOk(op.i) && (op.i.JumpCarry? || op.i.Test?)
    ensures CongAfter(c, f, g, op)
  {
    hide MemOk, DataStep, LoadDown, Holds, SameLow, SameLows, Branch, Interrupt, KbdInt, Rti, StoreRun;
    hide CoreOk, Low, Split, Signed, Value, Set, GetD, FieldOf, Push, Pop;
    CongAdvance(f, g, op.len);
    match op.i
    case JumpCarry(_, off) => CongBranch(f, g, 1, off);
    case Test(_, off) => CongBranch(f, g, op.len - 2, off);
  }

  lemma CongRest(c: Core, f: Flow, g: Flow, op: Opcode)
    requires CoreOk(c) && Cong(f, g) && InstrOk(op.i)
    requires op.i.Illegal? || op.i.Trap? || op.i.Nop? || op.i.Simple? || op.i.Return? || op.i.ReturnInt? ||
             op.i.ResetInt?
    ensures CongAfter(c, f, g, op)
  {
    CongAdvance(f, g, op.len);
    hide MemOk, DataStep, LoadDown, Holds, SameLow, SameLows, Branch, Interrupt, KbdInt, Rti, StoreRun;
    hide CoreOk, Low, Split, Signed, Value, Set, Get, GetD, FieldOf, Push;
    match op.i
    case ReturnInt => CongInterrupts(f, g);
    case ResetInt => CongInterrupts(Advance(f, op.len), Advance(g, op.len));
    case _ =>
  }

  /** Unmasked increments of the program counter are harmless: congruent machines step congruently. */
  lemma StepCongruent(c: Core, f: Flow, g: Flow)
    requires CoreOk(c) && Cong(f, g)
    ensures var (s, p) := StepOf(Saturn(c, f)); var (t, q) := StepOf(Saturn(c, g));
            s.core == t.core && Cong(s.flow, t.flow) && p == q
  {
    CoreMem(c);
    SameLowLoads(c.mem, f.pc, g.pc, WINDOW);
    assert Fetch(Saturn(c, f)) == Fetch(Saturn(c, g)) by { hide CoreOk, DecodeAt, LoadAll, Cong; }
    hide CoreOk, Fetch, Exec;
    CongExec(c, f, g, Fetch(Saturn(c, f)));
  }

  // ------------------------------------------------------------ stores that interrupt

  lemma StoreRunNone(s: Saturn, addr: int)
    requires CoreOk(s.core)
    ensures StoreRun(s, addr, []) == s
  {
    hide CoreOk;
  }

  lemma StoreRunNext(s: Saturn, addr: int, v: seq<int>)
    requires CoreOk(s.core) && v != []
    ensures var n := |v| - 1;
            StoreRun(s, addr, v) == PutNib(StoreRun(s, addr, v[..n]), addr + n, v[n])
  {
    hide CoreOk, MemOk, StoreNib;
  }

  /** The cell that a store to an address reaches. */
  function Where(s: Saturn, addr: int): Cell
    requires CoreOk(s.core)
  {
    CoreMem(s.core);
    StoreCellOf(s.core.mem, addr)
  }

  lemma PutNibCells(s: Saturn, addr: int, v: int, other: int)
    requires CoreOk(s.core)
    ensures Where(PutNib(s, addr, v), other) == Where(s, other)
  {
    CoreMem(s.core);
    CellUnmoved(s.core.mem, addr, v, other);
    hide CoreOk, MemOk, StoreCellOf, Memory.Store;
  }

  /** Stores leave the memory map as it is. */
  lemma {:induction false} StoreRunCells(s: Saturn, addr: int, v: seq<int>, other: int)
    requires CoreOk(s.core)
    ensures Where(StoreRun(s, addr, v), other) == Where(s, other)
    decreases |v|
  {
    hide *;
    if v == [] {
      StoreRunNone(s, addr);
    } else {
      var n := |v| - 1;
      StoreRunCells(s, addr, v[..n], other);
      PutNibCells(StoreRun(s, addr, v[..n]), addr + n, v[n], other);
      StoreRunNext(s, addr, v);
    }
  }

  /** A nibble stored to the card-control register with its low bit set interrupts. */
  predicate Raises(m: Mem, addr: int, v: int)
    requires Mapped(m)
  {
    StoreCellOf(m, addr) == Cell.Device(CARD_CONTROL) && Bit(Nib(v), 0) == 1
  }

  /** A run of stores leaves the flow of control alone exactly when interrupts are masked or no nibble raises one. */
  lemma {:induction false} StoreRunFlow(s: Saturn, addr: int, v: seq<int>)
    requires CoreOk(s.core) && MemOk(s.core.mem)
    ensures StoreRun(s, addr, v).flow == s.flow <==>
              !s.flow.enabled || forall i :: 0 <= i < |v| ==> !Raises(s.core.mem, addr + i, v[i])
    ensures StoreRun(s, addr, v).flow != s.flow ==> !StoreRun(s, addr, v).flow.enabled
    decreases |v|
  {
    hide CoreOk, MemOk, StoreCellOf, Memory.Store, Bit;
    if v != [] {
      var n := |v| - 1;
      StoreRunFlow(s, addr, v[..n]);
      StoreRunCells(s, addr, v[..n], addr + n);
      CoreMem(StoreRun(s, addr, v[..n]).core);
    }
  }
}
