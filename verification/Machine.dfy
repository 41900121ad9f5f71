/**
 The processor: what each decoded instruction does to the state, the invariant that every step
 keeps, and the fact that only the low twenty bits of the program counter ever matter.
 */
module Machine {
  import opened Digits
  import opened Fields
  import opened DaisyChain
  import opened Memory
  import opened ReturnStack
  import opened Interrupts
  import opened Instructions

  /** Everything except the program counter, the return stack and the interrupt flags. */
  datatype Core = Core(
    P: nat, CARRY: int, hexmode: nat,
    A: seq<int>, B: seq<int>, C: seq<int>, D: seq<int>, R: seq<seq<int>>,
    D0: int, D1: int, ST: seq<int>, OUT: seq<int>, rows: seq<bv16>,
    XM: int, SB: int, SR: int, MP: int, kbdIen: bool, shutdown: bool, mem: Mem)

  datatype Saturn = Saturn(core: Core, flow: Flow)

  ghost predicate RegOk(r: seq<int>) { |r| == 16 && Below(r, 16) }

  ghost predicate CoreOk(c: Core)
  {
    c.P < 16 && 0 <= c.CARRY <= 1 && Mode(c.hexmode) &&
    RegOk(c.A) && RegOk(c.B) && RegOk(c.C) && RegOk(c.D) &&
    |c.R| == 5 && (forall k :: 0 <= k < 5 ==> RegOk(c.R[k])) &&
    0 <= c.D0 < ADDR_SPACE && 0 <= c.D1 < ADDR_SPACE &&
    |c.ST| == 16 && Below(c.ST, 2) && |c.OUT| == 3 && Below(c.OUT, 16) && |c.rows| == 9 &&
    0 <= c.XM <= 1 && 0 <= c.SB <= 1 && 0 <= c.SR <= 1 && 0 <= c.MP <= 1 && MemOk(c.mem)
  }

  /** The machine invariant. */
  ghost predicate Ok(s: Saturn)
  {
    CoreOk(s.core) && |s.flow.stack| <= NR_RSTK && (s.flow.pending ==> !s.flow.enabled)
  }

  // ----------------------------------------------------------- registers and bits

  function Get(c: Core, r: Reg): seq<int>
  {
    match r case RA => c.A case RB => c.B case RC => c.C case RD => c.D
  }

  function Set(c: Core, r: Reg, v: seq<int>): Core
  {
    match r
    case RA => c.(A := v)
    case RB => c.(B := v)
    case RC => c.(C := v)
    case RD => c.(D := v)
  }

  function GetD(c: Core, d: nat): int { if d == 0 then c.D0 else c.D1 }

  function SetPointer(c: Core, d: nat, v: int): Core { if d == 0 then c.(D0 := v) else c.(D1 := v) }

  function Bit(x: int, k: nat): (r: int)
    ensures 0 <= r <= 1
  {
    match k
    case 0 => x % 2
    case 1 => x / 2 % 2
    case 2 => x / 4 % 2
    case _ => x / 8 % 2
  }

  function WithBit(x: int, k: nat, v: int): int
  {
    match k
    case 0 => x + (v - Bit(x, 0))
    case 1 => x + 2 * (v - Bit(x, 1))
    case 2 => x + 4 * (v - Bit(x, 2))
    case _ => x + 8 * (v - Bit(x, 3))
  }

  /** Overwrites the low digits of a register. */
  function Low(r: seq<int>, v: seq<int>): seq<int>
    requires |v| <= |r|
  {
    v + r[|v|..]
  }

  /** The number in the address field. */
  function Addr(r: seq<int>): int
    requires 5 <= |r|
  {
    Value(r[..5], 16)
  }

  function FieldOf(c: Core, r: Reg, f: nat): (v: seq<int>)
    requires c.P < 16 && f < 19 && |Get(c, r)| == 16
    ensures |v| == GetEnd(c.P, f) - GetStart(c.P, f) + 1
  {
    Field(Get(c, r), c.P, f)
  }

  function SetField(c: Core, r: Reg, f: nat, v: seq<int>): Core
    requires c.P < 16 && f < 19 && |Get(c, r)| == 16 && |v| == GetEnd(c.P, f) - GetStart(c.P, f) + 1
  {
    Set(c, r, Patch(Get(c, r), GetStart(c.P, f), v))
  }

  /** The sixteen keyboard lines that the selected rows pull up. */
  function Lines(out: seq<int>, rows: seq<bv16>, n: nat): bv16
    requires |out| == 3 && |rows| == 9 && n <= 9
  {
    if n == 0 then 0
    else if Bit(out[(n - 1) / 4], (n - 1) % 4) == 1 then Lines(out, rows, n - 1) | rows[n - 1]
    else Lines(out, rows, n - 1)
  }

  function InNibbles(out: seq<int>, rows: seq<bv16>): (r: seq<int>)
    requires |out| == 3 && |rows| == 9
    ensures |r| == 4
  {
    Split(Lines(out, rows, 9) as int, 16, 4)
  }

  const CHIP_ID: seq<int> := [0, 0, 0, 0, 0x05, 0xf6, 0x07, 0xf8, 0x01, 0xf2, 0, 0]

  /** The identity of the first controller still waiting for an address. */
  function ChipId(m: seq<Ctl>, i: nat := 0): int
    requires Shape(m) && i <= NR_MCTL
    decreases NR_MCTL - i
  {
    if i == NR_MCTL then 0
    else if m[i].unconfigured != 0 then CHIP_ID[2 * i + (2 - m[i].unconfigured)]
    else ChipId(m, i + 1)
  }

  /** Nibbles loaded with the CRC running, lowest address first. */
  function RecallRun(m: Mem, addr: int, n: nat): (r: (Mem, seq<int>))
    requires MemOk(m)
    ensures MemOk(r.0) && |r.1| == n
    decreases n
  {
    if n == 0 then (m, [])
    else
      var p := RecallRun(m, addr, n - 1);
      hide *;
      LoadKeepsOk(p.0, addr + n - 1);
      var q := LoadCrc(p.0, addr + n - 1);
      (q.0, p.1 + [q.1])
  }

  // ------------------------------------------------------------- data instructions

  /** Operands as the decoder produces them. */
  ghost predicate DataOk(d: Data)
  {
    match d
    case SetMode(base) => Mode(base)
    case SetP(n) => n < 16
    case Logic(_, _, _, f) => f < 19
    case Add(_, _, f) => f < 19
    case Sub(_, _, _, f) => f < 19
    case Inc(_, f) => f < 19
    case Dec(_, f) => f < 19
    case AddCon(_, f, con) => f < 19 && 1 <= con <= 16
    case SubCon(_, f, con) => f < 19 && 1 <= con <= 16
    case Clear(_, f) => f < 19
    case Copy(_, _, f) => f < 19
    case Exchange(_, _, f) => f < 19
    case Shl(_, f, _) => f < 19
    case Shr(_, f, _) => f < 19
    case ShrBit(_, f) => f < 19
    case Neg(_, f) => f < 19
    case Not(_, f) => f < 19
    case ToScratch(k, _, f) => k < 5 && f < 19
    case FromScratch(_, k, f) => k < 5 && f < 19
    case ExchScratch(_, k, f) => k < 5 && f < 19
    case SetD(d, _, n) => d < 2 && 4 <= n <= 5
    case ExchD(_, d, n) => d < 2 && 4 <= n <= 5
    case AddD(d, _) => d < 2
    case LoadD(d, v) => d < 2 && |v| <= 5 && Below(v, 16)
    case LoadReg(_, v) => |v| <= 16 && Below(v, 16)
    case Recall(_, d, f) => d < 2 && f < 19
    case RecallN(_, d, n) => d < 2 && n <= 16
    case Out(f) => f == OUT_FIELD || f == OUTS_FIELD
    case SetBit(_, n, bit) => n < 16 && 0 <= bit <= 1
    case CFromP(n) => n < 16
    case PFromC(n) => n < 16
    case SwapPC(n) => n < 16
    case SetSt(n, bit) => n < 16 && 0 <= bit <= 1
    case _ => true
  }

  /** Moves within the status word. */
  function StatusNibble(st: seq<int>, j: nat): int
    requires |st| == 16 && j < 3
  {
    st[4 * j] + 2 * st[4 * j + 1] + 4 * st[4 * j + 2] + 8 * st[4 * j + 3]
  }

  function StatusNibbles(st: seq<int>): (r: seq<int>)
    requires |st| == 16
    ensures |r| == 3
  {
    [StatusNibble(st, 0), StatusNibble(st, 1), StatusNibble(st, 2)]
  }

  function StatusBits(c: seq<int>): (r: seq<int>)
    requires |c| == 16
    ensures |r| == 12 && Below(r, 2)
  {
    seq(12, i requires 0 <= i < 12 => Bit(c[i / 4], i % 4))
  }

  function StatusStep(c: Core, d: Data): Core
    requires CoreOk(c)
  {
    match d
    case ClearSt => c.(ST := Low(c.ST, Zeros(12)))
    case StToC => c.(C := Low(c.C, StatusNibbles(c.ST)))
    case CToSt => c.(ST := Low(c.ST, StatusBits(c.C)))
    case SwapSt => c.(ST := Low(c.ST, StatusBits(c.C)), C := Low(c.C, StatusNibbles(c.ST)))
    case SetSt(n, bit) => if n < 16 then c.(ST := c.ST[n := bit]) else c
    case SetMode(base) => c.(hexmode := base)
    case SetP(n) => c.(P := n)
    case StepP(up) =>
      if up then (if c.P == 15 then c.(P := 0, CARRY := 1) else c.(P := c.P + 1, CARRY := 0))
      else (if c.P == 0 then c.(P := 15, CARRY := 1) else c.(P := c.P - 1, CARRY := 0))
    case ClearHst(mask) =>
      c.(XM := if Bit(mask, 0) == 1 then 0 else c.XM, SB := if Bit(mask, 1) == 1 then 0 else c.SB,
         SR := if Bit(mask, 2) == 1 then 0 else c.SR, MP := if Bit(mask, 3) == 1 then 0 else c.MP)
    case ServiceRequest => c.(C := c.C[0 := 0], SR := 0)
    case Shutdn => c.(shutdown := true)
    case IntOn => c.(kbdIen := true)
    case IntOff => c.(kbdIen := false)
    case _ => c
  }

  function Flag(x: int): int { if x != 0 then 1 else 0 }

  function ArithStep(c: Core, d: Data): Core
    requires CoreOk(c) && DataOk(d)
  {
    match d
    case Logic(or, dst, src, f) => SetField(c, dst, f, MapNibs(or, FieldOf(c, dst, f), FieldOf(c, src, f)))
    case Add(dst, src, f) =>
      var (v, out) := AddDigits(FieldOf(c, dst, f), FieldOf(c, src, f), c.hexmode);
      SetField(c, dst, f, v).(CARRY := out)
    case Sub(dst, a, b, f) =>
      var (v, out) := SubDigits(FieldOf(c, a, f), FieldOf(c, b, f), c.hexmode);
      SetField(c, dst, f, v).(CARRY := out)
    case Inc(dst, f) =>
      var (v, out) := RippleUp(FieldOf(c, dst, f), 1, c.hexmode);
      SetField(c, dst, f, v).(CARRY := Flag(out))
    case Dec(dst, f) =>
      var (v, out) := RippleDown(FieldOf(c, dst, f), 1, c.hexmode);
      SetField(c, dst, f, v).(CARRY := Flag(out))
    case AddCon(dst, f, con) =>
      var (v, out) := RippleUp(FieldOf(c, dst, f), con, HEX);
      SetField(c, dst, f, v).(CARRY := Flag(out))
    case SubCon(dst, f, con) =>
      var (v, out) := RippleDown(FieldOf(c, dst, f), con, HEX);
      SetField(c, dst, f, v).(CARRY := Flag(out))
    case Neg(dst, f) =>
      var (v, _, sum) := NegDigits(FieldOf(c, dst, f), c.hexmode);
      SetField(c, dst, f, v).(CARRY := Flag(sum))
    case Not(dst, f) => SetField(c, dst, f, NotDigits(FieldOf(c, dst, f), c.hexmode)).(CARRY := 0)
    case CPlusP =>
      var (v, out) := RippleUp(c.C[..5], c.P + 1, HEX);
      c.(C := Low(c.C, v), CARRY := Flag(out))
    case _ => c
  }

  /** Moves within one register, and between registers and P, IN and OUT. */
  function RegisterStep(c: Core, d: Data): Core
    requires CoreOk(c) && DataOk(d)
  {
    match d
    case SetBit(dst, n, bit) => Set(c, dst, Get(c, dst)[n / 4 := WithBit(Get(c, dst)[n / 4], n % 4, bit)])
    case CFromP(n) => c.(C := c.C[n := c.P])
    case PFromC(n) => c.(P := c.C[n])
    case SwapPC(n) => c.(C := c.C[n := c.P], P := c.C[n])
    case LoadReg(dst, v) => Set(c, dst, Wrap(Get(c, dst), c.P, v))
    case In(dst) => Set(c, dst, Low(Get(c, dst), InNibbles(c.OUT, c.rows)))
    case Out(f) => c.(OUT := Low(c.OUT, c.C[..if f == OUT_FIELD then 3 else 1]))
    case _ => c
  }

  function MoveStep(c: Core, d: Data): Core
    requires CoreOk(c) && DataOk(d)
  {
    assert c.P < 16 && forall r: Reg :: |Get(c, r)| == 16;
    hide CoreOk, GetStart, GetEnd, Patch;
    match d
    case Clear(dst, f) => SetField(c, dst, f, Zeros(|FieldOf(c, dst, f)|))
    case Copy(dst, src, f) => SetField(c, dst, f, FieldOf(c, src, f))
    case Exchange(a, b, f) => SetField(SetField(c, a, f, FieldOf(c, b, f)), b, f, FieldOf(c, a, f))
    case Shl(dst, f, circ) =>
      var v := FieldOf(c, dst, f);
      SetField(c, dst, f, ShiftLeft(v, if circ then v[|v| - 1] else 0))
    case Shr(dst, f, circ) =>
      var v := FieldOf(c, dst, f);
      SetField(c, dst, f, ShiftRight(v, if circ then v[0] else 0)).(SB := if v[0] != 0 then 1 else c.SB)
    case ShrBit(dst, f) =>
      var (v, out) := ShiftRightBit(FieldOf(c, dst, f), 0);
      SetField(c, dst, f, v).(SB := if out != 0 then 1 else c.SB)
    case _ => RegisterStep(c, d)
  }

  /** Digits written from position p on, running from position 15 to position 0. */
  function Wrap(r: seq<int>, p: nat, v: seq<int>): (r': seq<int>)
    requires |r| == 16
    ensures |r'| == 16
    decreases |v|
  {
    if v == [] then r else Wrap(r, p, v[..|v| - 1])[(p + |v| - 1) % 16 := v[|v| - 1]]
  }

  function ScratchStep(c: Core, d: Data): Core
    requires CoreOk(c) && DataOk(d)
  {
    match d
    case ToScratch(k, src, f) =>
      c.(R := c.R[k := Patch(c.R[k], GetStart(c.P, f), FieldOf(c, src, f))])
    case FromScratch(dst, k, f) => SetField(c, dst, f, Field(c.R[k], c.P, f))
    case ExchScratch(dst, k, f) =>
      SetField(c, dst, f, Field(c.R[k], c.P, f))
        .(R := c.R[k := Patch(c.R[k], GetStart(c.P, f), FieldOf(c, dst, f))])
    case _ => c
  }

  /** The low n nibbles of a pointer replaced. */
  function LowDigits(x: int, v: seq<int>): int
  {
    PowPositive(16, |v|);
    Value(v, 16) + Pow(16, |v|) * (x / Pow(16, |v|))
  }

  lemma {:induction false} Pow16(n: nat)
    requires n <= 5
    ensures Pow(16, n) == [1, 16, 0x100, 0x1000, 0x10000, 0x100000][n]
  {
    if n > 0 { Pow16(n - 1); }
  }

  function PointerStep(c: Core, d: Data): Core
    requires CoreOk(c) && DataOk(d)
  {
    match d
    case SetD(d, src, n) => Pow16(n); SetPointer(c, d, LowDigits(GetD(c, d), Get(c, src)[..n]))
    case ExchD(r, d, n) =>
      Pow16(n);
      SetPointer(Set(c, r, Low(Get(c, r), Split(GetD(c, d), 16, n))), d,
                 LowDigits(GetD(c, d), Get(c, r)[..n]))
    case LoadD(d, v) => Pow16(|v|); SetPointer(c, d, LowDigits(GetD(c, d), v))
    case AddD(d, step) =>
      var t := GetD(c, d) + step;
      SetPointer(c, d, t % ADDR_SPACE).(CARRY := if 0 <= t < ADDR_SPACE then 0 else 1)
    case _ => c
  }

  function BusStep(c: Core, d: Data): Core
    requires CoreOk(c) && DataOk(d)
  {
    match d
    case Recall(dst, d, f) =>
      var (m, v) := RecallRun(c.mem, GetD(c, d), |FieldOf(c, dst, f)|);
      SetField(c, dst, f, v).(mem := m)
    case RecallN(dst, d, n) =>
      var (m, v) := RecallRun(c.mem, GetD(c, d), n);
      Set(c, dst, Low(Get(c, dst), v)).(mem := m)
    case Uncnfg => c.(mem := c.mem.(ctl := Unconfigure(c.mem.ctl, Addr(c.C))))
    case Config => c.(mem := c.mem.(ctl := Configure(c.mem.ctl, Addr(c.C))))
    case ResetBus => c.(mem := c.mem.(ctl := Reset()))
    case Identify => c.(C := Low(c.C, Split(ChipId(c.mem.ctl), 16, 3)))
    case _ => c
  }

  datatype Unit = StatusUnit | ArithUnit | MoveUnit | ScratchUnit | PointerUnit | BusUnit

  function UnitOf(d: Data): Unit
  {
    match d
    case Logic(_, _, _, _) => ArithUnit
    case Add(_, _, _) => ArithUnit
    case Sub(_, _, _, _) => ArithUnit
    case Inc(_, _) => ArithUnit
    case Dec(_, _) => ArithUnit
    case AddCon(_, _, _) => ArithUnit
    case SubCon(_, _, _) => ArithUnit
    case Neg(_, _) => ArithUnit
    case Not(_, _) => ArithUnit
    case CPlusP => ArithUnit
    case Clear(_, _) => MoveUnit
    case Copy(_, _, _) => MoveUnit
    case Exchange(_, _, _) => MoveUnit
    case Shl(_, _, _) => MoveUnit
    case Shr(_, _, _) => MoveUnit
    case ShrBit(_, _) => MoveUnit
    case SetBit(_, _, _) => MoveUnit
    case CFromP(_) => MoveUnit
    case PFromC(_) => MoveUnit
    case SwapPC(_) => MoveUnit
    case LoadReg(_, _) => MoveUnit
    case In(_) => MoveUnit
    case Out(_) => MoveUnit
    case ToScratch(_, _, _) => ScratchUnit
    case FromScratch(_, _, _) => ScratchUnit
    case ExchScratch(_, _, _) => ScratchUnit
    case SetD(_, _, _) => PointerUnit
    case ExchD(_, _, _) => PointerUnit
    case AddD(_, _) => PointerUnit
    case LoadD(_, _) => PointerUnit
    case Recall(_, _, _) => BusUnit
    case RecallN(_, _, _) => BusUnit
    case Uncnfg => BusUnit
    case Config => BusUnit
    case Identify => BusUnit
    case ResetBus => BusUnit
    case _ => StatusUnit
  }

  function DataStep(c: Core, d: Data): Core
    requires CoreOk(c) && DataOk(d)
  {
    match UnitOf(d)
    case StatusUnit => StatusStep(c, d)
    case ArithUnit => ArithStep(c, d)
    case MoveUnit => MoveStep(c, d)
    case ScratchUnit => ScratchStep(c, d)
    case PointerUnit => PointerStep(c, d)
    case BusUnit => BusStep(c, d)
  }

  // ------------------------------------------------------- data steps keep the invariant

  lemma LowOk(r: seq<int>, v: seq<int>, bound: int)
    requires |v| <= |r| && Below(r, bound) && Below(v, bound)
    ensures |Low(r, v)| == |r| && Below(Low(r, v), bound)
  {
  }

  lemma PatchOk(r: seq<int>, s: nat, v: seq<int>, bound: int)
    requires s + |v| <= |r| && Below(r, bound) && Below(v, bound)
    ensures Below(Patch(r, s, v), bound)
  {
  }

  lemma SetOk(c: Core, r: Reg, v: seq<int>)
    requires CoreOk(c) && RegOk(v)
    ensures CoreOk(Set(c, r, v)) && RegOk(Get(c, r))
  {
  }

  lemma SetFieldOk(c: Core, r: Reg, f: nat, v: seq<int>)
    requires CoreOk(c) && f < 19 && |v| == GetEnd(c.P, f) - GetStart(c.P, f) + 1 && Below(v, 16)
    ensures CoreOk(SetField(c, r, f, v))
  {
    PatchOk(Get(c, r), GetStart(c.P, f), v, 16);
    SetOk(c, r, Patch(Get(c, r), GetStart(c.P, f), v));
  }

  lemma FieldOk(c: Core, r: Reg, f: nat)
    requires CoreOk(c) && f < 19
    ensures Below(FieldOf(c, r, f), 16)
  {
  }

  lemma StatusOk(st: seq<int>)
    requires |st| == 16 && Below(st, 2)
    ensures Below(StatusNibbles(st), 16)
  {
  }

  predicate MovesStatus(d: Data) { d.ClearSt? || d.StToC? || d.CToSt? || d.SwapSt? }

  lemma StatusMovesKeepOk(c: Core, d: Data)
    requires CoreOk(c) && DataOk(d) && MovesStatus(d)
    ensures CoreOk(StatusStep(c, d))
  {
    hide MemOk, StatusNibbles, StatusBits, Zeros, Bit;
    StatusOk(c.ST);
    LowOk(c.C, StatusNibbles(c.ST), 16);
    LowOk(c.ST, StatusBits(c.C), 2);
    LowOk(c.ST, Zeros(12), 2);
  }

  lemma StatusKeepsOk(c: Core, d: Data)
    requires CoreOk(c) && DataOk(d) && UnitOf(d) == StatusUnit
    ensures CoreOk(StatusStep(c, d))
  {
    if MovesStatus(d) {
      hide CoreOk, DataOk, StatusStep, UnitOf;
      StatusMovesKeepOk(c, d);
    } else if d.SetSt? || d.ServiceRequest? {
      hide MemOk, Low, StatusNibbles, StatusBits, Zeros, Bit;
    } else {
      hide MemOk, Below, Low, StatusNibbles, StatusBits, Zeros, Bit;
    }
  }

  lemma LogicKeepsOk(c: Core, d: Data)
    requires CoreOk(c) && DataOk(d) && d.Logic?
    ensures CoreOk(ArithStep(c, d))
  {
    SetFieldOk(c, d.dst, d.f, MapNibs(d.or, FieldOf(c, d.dst, d.f), FieldOf(c, d.src, d.f)));
  }

  lemma AddKeepsOk(c: Core, d: Data)
    requires CoreOk(c) && DataOk(d) && d.Add?
    ensures CoreOk(ArithStep(c, d))
  {
    AddRange(FieldOf(c, d.dst, d.f), FieldOf(c, d.src, d.f), c.hexmode);
    SetFieldOk(c, d.dst, d.f, AddDigits(FieldOf(c, d.dst, d.f), FieldOf(c, d.src, d.f), c.hexmode).0);
  }

  lemma SubKeepsOk(c: Core, d: Data)
    requires CoreOk(c) && DataOk(d) && d.Sub?
    ensures CoreOk(ArithStep(c, d))
  {
    SubRange(FieldOf(c, d.a, d.f), FieldOf(c, d.b, d.f), c.hexmode);
    SetFieldOk(c, d.dst, d.f, SubDigits(FieldOf(c, d.a, d.f), FieldOf(c, d.b, d.f), c.hexmode).0);
  }

  lemma IncKeepsOk(c: Core, d: Data)
    requires CoreOk(c) && DataOk(d) && d.Inc?
    ensures CoreOk(ArithStep(c, d))
  {
    RippleUpRange(FieldOf(c, d.dst, d.f), 1, c.hexmode);
    SetFieldOk(c, d.dst, d.f, RippleUp(FieldOf(c, d.dst, d.f), 1, c.hexmode).0);
  }

  lemma DecKeepsOk(c: Core, d: Data)
    requires CoreOk(c) && DataOk(d) && d.Dec?
    ensures CoreOk(ArithStep(c, d))
  {
    RippleDownRange(FieldOf(c, d.dst, d.f), 1, c.hexmode);
    SetFieldOk(c, d.dst, d.f, RippleDown(FieldOf(c, d.dst, d.f), 1, c.hexmode).0);
  }

  lemma AddConKeepsOk(c: Core, d: Data)
    requires CoreOk(c) && DataOk(d) && d.AddCon?
    ensures CoreOk(ArithStep(c, d))
  {
    RippleUpRange(FieldOf(c, d.dst, d.f), d.con, HEX);
    SetFieldOk(c, d.dst, d.f, RippleUp(FieldOf(c, d.dst, d.f), d.con, HEX).0);
  }

  lemma SubConKeepsOk(c: Core, d: Data)
    requires CoreOk(c) && DataOk(d) && d.SubCon?
    ensures CoreOk(ArithStep(c, d))
  {
    RippleDownRange(FieldOf(c, d.dst, d.f), d.con, HEX);
    SetFieldOk(c, d.dst, d.f, RippleDown(FieldOf(c, d.dst, d.f), d.con, HEX).0);
  }

  lemma NegKeepsOk(c: Core, d: Data)
    requires CoreOk(c) && DataOk(d) && d.Neg?
    ensures CoreOk(ArithStep(c, d))
  {
    NegRange(FieldOf(c, d.dst, d.f), c.hexmode);
    SetFieldOk(c, d.dst, d.f, NegDigits(FieldOf(c, d.dst, d.f), c.hexmode).0);
  }

  lemma NotKeepsOk(c: Core, d: Data)
    requires CoreOk(c) && DataOk(d) && d.Not?
    ensures CoreOk(ArithStep(c, d))
  {
    NotRange(FieldOf(c, d.dst, d.f), c.hexmode);
    SetFieldOk(c, d.dst, d.f, NotDigits(FieldOf(c, d.dst, d.f), c.hexmode));
  }

  lemma CPlusPKeepsOk(c: Core)
    requires CoreOk(c)
    ensures CoreOk(ArithStep(c, CPlusP))
  {
    RippleUpRange(c.C[..5], c.P + 1, HEX);
    LowOk(c.C, RippleUp(c.C[..5], c.P + 1, HEX).0, 16);
  }

  lemma ArithKeepsOk(c: Core, d: Data)
    requires CoreOk(c) && DataOk(d) && UnitOf(d) == ArithUnit
    ensures CoreOk(ArithStep(c, d))
  {
    hide ArithStep, CoreOk, DataOk;
    match d
    case Logic(_, _, _, _) => LogicKeepsOk(c, d);
    case Add(_, _, _) => AddKeepsOk(c, d);
    case Sub(_, _, _, _) => SubKeepsOk(c, d);
    case Inc(_, _) => IncKeepsOk(c, d);
    case Dec(_, _) => DecKeepsOk(c, d);
    case AddCon(_, _, _) => AddConKeepsOk(c, d);
    case SubCon(_, _, _) => SubConKeepsOk(c, d);
    case Neg(_, _) => NegKeepsOk(c, d);
    case Not(_, _) => NotKeepsOk(c, d);
    case CPlusP => CPlusPKeepsOk(c);
  }

  lemma ShiftsOk(v: seq<int>, t: int)
    requires v != [] && Below(v, 16) && 0 <= t < 16
    ensures Below(ShiftLeft(v, t), 16) && Below(ShiftRight(v, t), 16)
  {
  }

  lemma ShiftKeepsOk(c: Core, d: Data)
    requires CoreOk(c) && DataOk(d) && (d.Shl? || d.Shr?)
    ensures CoreOk(MoveStep(c, d))
  {
    hide MemOk;
    var v := FieldOf(c, d.dst, d.f);
    FieldOk(c, d.dst, d.f);
    if d.Shl? {
      var t := if d.circ then v[|v| - 1] else 0;
      ShiftsOk(v, t);
      SetFieldOk(c, d.dst, d.f, ShiftLeft(v, t));
    } else {
      var t := if d.circ then v[0] else 0;
      ShiftsOk(v, t);
      SetFieldOk(c, d.dst, d.f, ShiftRight(v, t));
    }
  }

  lemma ShrBitKeepsOk(c: Core, d: Data)
    requires CoreOk(c) && DataOk(d) && d.ShrBit?
    ensures CoreOk(MoveStep(c, d))
  {
    hide MemOk;
    FieldOk(c, d.dst, d.f);
    ShiftRightBitRange(FieldOf(c, d.dst, d.f), 0);
    SetFieldOk(c, d.dst, d.f, ShiftRightBit(FieldOf(c, d.dst, d.f), 0).0);
  }

  lemma CopyKeepsOk(c: Core, d: Data)
    requires CoreOk(c) && DataOk(d) && (d.Clear? || d.Copy? || d.Exchange?)
    ensures CoreOk(MoveStep(c, d))
  {
    hide MemOk;
    match d
    case Clear(dst, f) => SetFieldOk(c, dst, f, Zeros(|FieldOf(c, dst, f)|));
    case Copy(dst, src, f) =>
      FieldOk(c, src, f);
      SetFieldOk(c, dst, f, FieldOf(c, src, f));
    case Exchange(a, b, f) =>
      FieldOk(c, a, f);
      FieldOk(c, b, f);
      SetFieldOk(c, a, f, FieldOf(c, b, f));
      SetFieldOk(SetField(c, a, f, FieldOf(c, b, f)), b, f, FieldOf(c, a, f));
  }

  lemma BitsOfNibble(x: int)
    requires 0 <= x < 16
    ensures x == Bit(x, 0) + 2 * Bit(x, 1) + 4 * Bit(x, 2) + 8 * Bit(x, 3)
  {
  }

  lemma NibbleOfBits(b0: int, b1: int, b2: int, b3: int)
    requires 0 <= b0 <= 1 && 0 <= b1 <= 1 && 0 <= b2 <= 1 && 0 <= b3 <= 1
    ensures var x := b0 + 2 * b1 + 4 * b2 + 8 * b3;
            Bit(x, 0) == b0 && Bit(x, 1) == b1 && Bit(x, 2) == b2 && Bit(x, 3) == b3
  {
  }

  /** Setting or clearing one bit of a nibble changes that bit and no other. */
  lemma WithBitOk(x: int, k: nat, v: int, j: nat)
    requires 0 <= x < 16 && k < 4 && 0 <= v <= 1 && j < 4
    ensures 0 <= WithBit(x, k, v) < 16
    ensures Bit(WithBit(x, k, v), j) == if j == k then v else Bit(x, j)
  {
    BitsOfNibble(x);
    var b0, b1, b2, b3 := Bit(x, 0), Bit(x, 1), Bit(x, 2), Bit(x, 3);
    NibbleOfBits(if k == 0 then v else b0, if k == 1 then v else b1,
                 if k == 2 then v else b2, if k == 3 then v else b3);
    hide Bit;
  }

  lemma BitKeepsOk(c: Core, d: Data)
    requires CoreOk(c) && DataOk(d) && (d.SetBit? || d.CFromP? || d.PFromC? || d.SwapPC?)
    ensures CoreOk(MoveStep(c, d))
  {
    hide MemOk, Bit, WithBit;
    if d.SetBit? {
      var x, k := Get(c, d.dst), d.n / 4;
      WithBitOk(x[k], d.n % 4, d.bit, d.n % 4);
      SetOk(c, d.dst, x[k := WithBit(x[k], d.n % 4, d.bit)]);
      hide CoreOk;
    }
  }

  lemma {:induction false} WrapOk(r: seq<int>, p: nat, v: seq<int>)
    requires RegOk(r) && Below(v, 16)
    ensures RegOk(Wrap(r, p, v))
    decreases |v|
  {
    if v != [] { WrapOk(r, p, v[..|v| - 1]); }
  }

  lemma LoadKeepsRegs(c: Core, d: Data)
    requires CoreOk(c) && DataOk(d) && (d.LoadReg? || d.In?)
    ensures CoreOk(MoveStep(c, d))
  {
    var x := Get(c, d.dst);
    assert RegOk(x) && |c.OUT| == 3 && |c.rows| == 9;
    hide CoreOk, Get, Set, Low, Wrap, Lines, Below;
    match d
    case LoadReg(dst, v) =>
      WrapOk(x, c.P, v);
      SetOk(c, dst, Wrap(x, c.P, v));
    case In(dst) =>
      SplitBelow(Lines(c.OUT, c.rows, 9) as int, 16, 4);
      LowOk(x, InNibbles(c.OUT, c.rows), 16);
      SetOk(c, dst, Low(x, InNibbles(c.OUT, c.rows)));
  }

  lemma OutKeepsOk(c: Core, d: Data)
    requires CoreOk(c) && DataOk(d) && d.Out?
    ensures CoreOk(MoveStep(c, d))
  {
    hide MemOk, Low;
    LowOk(c.OUT, c.C[..if d.f == OUT_FIELD then 3 else 1], 16);
  }

  lemma MoveKeepsOk(c: Core, d: Data)
    requires CoreOk(c) && DataOk(d) && UnitOf(d) == MoveUnit
    ensures CoreOk(MoveStep(c, d))
  {
    hide MoveStep, CoreOk, DataOk;
    match d
    case Shl(_, _, _) => ShiftKeepsOk(c, d);
    case Shr(_, _, _) => ShiftKeepsOk(c, d);
    case ShrBit(_, _) => ShrBitKeepsOk(c, d);
    case Clear(_, _) => CopyKeepsOk(c, d);
    case Copy(_, _, _) => CopyKeepsOk(c, d);
    case Exchange(_, _, _) => CopyKeepsOk(c, d);
    case LoadReg(_, _) => LoadKeepsRegs(c, d);
    case In(_) => LoadKeepsRegs(c, d);
    case Out(_) => OutKeepsOk(c, d);
    case _ => BitKeepsOk(c, d);
  }

  lemma ScratchKeepsOk(c: Core, d: Data)
    requires CoreOk(c) && DataOk(d) && UnitOf(d) == ScratchUnit
    ensures CoreOk(ScratchStep(c, d))
  {
    hide MemOk;
    var r := if d.ToScratch? then d.src else d.dst;
    FieldOk(c, r, d.f);
    PatchOk(c.R[d.k], GetStart(c.P, d.f), FieldOf(c, r, d.f), 16);
    if !d.ToScratch? {
      assert RegOk(c.R[d.k]);
      SetFieldOk(c, d.dst, d.f, Field(c.R[d.k], c.P, d.f));
    }
  }

  lemma LowDigitsOk(x: int, v: seq<int>)
    requires 0 <= x < ADDR_SPACE && |v| <= 5 && Below(v, 16)
    ensures 0 <= LowDigits(x, v) < ADDR_SPACE
  {
    Pow16(|v|);
    ValueBound(v, 16);
  }

  lemma SetPointerOk(c: Core, k: nat, v: int)
    requires CoreOk(c) && 0 <= v < ADDR_SPACE
    ensures CoreOk(SetPointer(c, k, v))
  {
    hide MemOk, Below;
  }

  lemma PointerInRange(c: Core, k: nat)
    requires CoreOk(c)
    ensures 0 <= GetD(c, k) < ADDR_SPACE
  {
  }

  lemma ExchDKeepsOk(c: Core, d: Data)
    requires CoreOk(c) && DataOk(d) && d.ExchD?
    ensures CoreOk(PointerStep(c, d))
  {
    var x, p := Get(c, d.r), GetD(c, d.d);
    assert RegOk(x) && Below(x[..d.n], 16);
    hide CoreOk, LowDigits, Low, Split, Get, Set, GetD, SetPointer, Below;
    PointerInRange(c, d.d);
    LowDigitsOk(p, x[..d.n]);
    SplitBelow(p, 16, d.n);
    LowOk(x, Split(p, 16, d.n), 16);
    SetOk(c, d.r, Low(x, Split(p, 16, d.n)));
    SetPointerOk(Set(c, d.r, Low(x, Split(p, 16, d.n))), d.d, LowDigits(p, x[..d.n]));
  }

  lemma PointerKeepsOk(c: Core, d: Data)
    requires CoreOk(c) && DataOk(d) && UnitOf(d) == PointerUnit
    ensures CoreOk(PointerStep(c, d))
  {
    if d.ExchD? {
      hide CoreOk, DataOk, PointerStep, UnitOf;
      ExchDKeepsOk(c, d);
    } else {
      hide MemOk, LowDigits;
      match d
      case SetD(d, src, n) => LowDigitsOk(GetD(c, d), Get(c, src)[..n]);
      case LoadD(d, v) => LowDigitsOk(GetD(c, d), v);
      case AddD(d, step) =>
    }
  }

  lemma {:induction false} RecallBelow(m: Mem, addr: int, n: nat)
    requires MemOk(m)
    ensures Below(RecallRun(m, addr, n).1, 16)
    decreases n
  {
    if n > 0 {
      RecallBelow(m, addr, n - 1);
      LoadKeepsOk(RecallRun(m, addr, n - 1).0, addr + n - 1);
      hide LoadCrc, MemOk;
      BelowSnoc(RecallRun(m, addr, n - 1).1, LoadCrc(RecallRun(m, addr, n - 1).0, addr + n - 1).1, 16);
    }
  }

  lemma UnconfigureKeepsShape(m: seq<Ctl>, conf: int)
    requires Shape(m)
    ensures Shape(Unconfigure(m, conf))
  {
    var i := FirstBased(m, conf, 0);
  }

  lemma RecallKeepsOk(c: Core, d: Data)
    requires CoreOk(c) && DataOk(d) && d.Recall?
    ensures CoreOk(BusStep(c, d))
  {
    var n := |FieldOf(c, d.dst, d.f)|;
    hide MemOk, Below, Value, GetStart, GetEnd;
    RecallBelow(c.mem, GetD(c, d.d), n);
    SetFieldOk(c, d.dst, d.f, RecallRun(c.mem, GetD(c, d.d), n).1);
  }

  lemma RecallNKeepsOk(c: Core, d: Data)
    requires CoreOk(c) && DataOk(d) && d.RecallN?
    ensures CoreOk(BusStep(c, d))
  {
    hide MemOk, Value;
    var v := RecallRun(c.mem, GetD(c, d.d), d.n).1;
    RecallBelow(c.mem, GetD(c, d.d), d.n);
    LowOk(Get(c, d.dst), v, 16);
    SetOk(c, d.dst, Low(Get(c, d.dst), v));
  }

  lemma BusKeepsOk(c: Core, d: Data)
    requires CoreOk(c) && DataOk(d) && UnitOf(d) == BusUnit
    ensures CoreOk(BusStep(c, d))
  {
    match d
    case Recall(_, _, _) => RecallKeepsOk(c, d);
    case RecallN(_, _, _) => RecallNKeepsOk(c, d);
    case Uncnfg => UnconfigureKeepsShape(c.mem.ctl, Addr(c.C));
    case Config =>
    case ResetBus =>
    case Identify =>
      hide MemOk, Value;
      SplitBelow(ChipId(c.mem.ctl), 16, 3);
      LowOk(c.C, Split(ChipId(c.mem.ctl), 16, 3), 16);
  }

  /** The invariant holds after any instruction that leaves the flow of control alone. */
  lemma DataKeepsOk(c: Core, d: Data)
    requires CoreOk(c) && DataOk(d)
    ensures CoreOk(DataStep(c, d))
  {
    hide CoreOk, DataOk, StatusStep, ArithStep, MoveStep, ScratchStep, PointerStep, BusStep;
    match UnitOf(d)
    case StatusUnit => StatusKeepsOk(c, d);
    case ArithUnit => ArithKeepsOk(c, d);
    case MoveUnit => MoveKeepsOk(c, d);
    case ScratchUnit => ScratchKeepsOk(c, d);
    case PointerUnit => PointerKeepsOk(c, d);
    case BusUnit => BusKeepsOk(c, d);
  }
}