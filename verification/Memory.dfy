/**
 The memory map as one decode from addresses to physical cells, and what loading from and
 storing to a cell does.
 */
module Memory {
  import opened Digits
  import opened Fields
  import opened DaisyChain
  import Crc

  const ADDR_SPACE := 0x100000
  const ROM_SIZE_SX := 0x80000
  const RAM_SIZE_SX := 0x10000
  const RAM_SIZE_GX := 0x40000

  // Places in the chain of memory controllers, per model.
  const MCTL_MMIO := 0
  const MCTL_SysRAM := 1
  const MCTL_PORT1_SX := 2
  const MCTL_PORT2_SX := 3
  const MCTL_BANK_GX := 2
  const MCTL_PORT1_GX := 3
  const MCTL_PORT2_GX := 4

  datatype Model = SX | GX

  /** The device registers 0x100-0x13f, nibble by nibble, with the CRC and the line counter apart. */
  datatype Dev = Dev(raw: seq<int>, crc: int, lineCounter: int)

  /** A card of 2^k nibbles; addresses into it wrap. */
  datatype Card = Card(data: seq<int>, isRam: bool)

  datatype Mem = Mem(model: Model, rom: seq<int>, ram: seq<int>, port1: Card, port2: Card,
                     ctl: seq<Ctl>, bank: int, dev: Dev)

  ghost predicate DevOk(d: Dev)
  {
    |d.raw| == 0x40 && Below(d.raw, 16) && 0 <= d.crc < 0x10000 && -1 <= d.lineCounter <= 0x3f
  }

  ghost predicate CardOk(c: Card)
  {
    0 < |c.data| && Below(c.data, 16)
  }

  /** Every stored nibble is a nibble, and the buffers have their sizes. */
  ghost predicate MemOk(m: Mem)
  {
    |m.rom| == (if m.model.SX? then ROM_SIZE_SX else ADDR_SPACE) && Below(m.rom, 16) &&
    |m.ram| == (if m.model.SX? then RAM_SIZE_SX else RAM_SIZE_GX) && Below(m.ram, 16) &&
    CardOk(m.port1) && CardOk(m.port2) && Shape(m.ctl) && 0 <= m.bank && DevOk(m.dev)
  }

  // ----------------------------------------------------------------- the decode

  datatype Cell =
    | Rom(a: nat)
    | Ram(i: nat)
    | Port1(i: nat)
    | Port2(i: nat)
    | Device(a: nat)
    | NoDevice           // the device window while the device controller is elsewhere
    | BankSwitch(o: nat) // offset in the bank-switch window
    | PortControl
    | Nothing

  function Masked(addr: int): (a: nat)
    ensures a < ADDR_SPACE
  {
    addr % ADDR_SPACE
  }

  function Base(m: Mem, c: nat): int
    requires |m.ctl| == NR_MCTL && c < NR_MCTL
  {
    m.ctl[c].config0
  }

  function Size(m: Mem, c: nat): int
    requires |m.ctl| == NR_MCTL && c < NR_MCTL
  {
    m.ctl[c].config1
  }

  function Card1(m: Mem, o: nat): Cell
    requires 0 < |m.port1.data|
  {
    Port1(o % |m.port1.data|)
  }

  function Card2(m: Mem, o: nat): Cell
    requires 0 < |m.port2.data|
  {
    Port2(o % |m.port2.data|)
  }

  function LowPage(m: Mem, a: nat): Cell
    requires |m.ctl| == NR_MCTL
  {
    if 0x100 <= a < 0x140 then (if Base(m, MCTL_MMIO) == 0x100 then Device(a) else NoDevice) else Rom(a)
  }

  function SxCell(m: Mem, a: nat): Cell
    requires |m.ctl| == NR_MCTL && 0 < |m.port1.data| && 0 < |m.port2.data| && a < ADDR_SPACE
  {
    if a < 0x10000 then LowPage(m, a)
    else if a < 0x70000 then Rom(a)
    else if a < 0x80000 then
      if Base(m, MCTL_SysRAM) == 0x70000 &&
         ((Size(m, MCTL_SysRAM) == 0xfc000 && a < 0x74000) || (Size(m, MCTL_SysRAM) == 0xfe000 && a < 0x72000) ||
          Size(m, MCTL_SysRAM) == 0xf0000)
      then Ram(a - 0x70000) else Rom(a)
    else if a < 0xc0000 then
      if Base(m, MCTL_PORT1_SX) == 0x80000 then Card1(m, a - 0x80000)
      else if Base(m, MCTL_PORT2_SX) == 0x80000 then Card2(m, a - 0x80000)
      else Nothing
    else if a >= 0xf0000 && Base(m, MCTL_SysRAM) == 0xf0000 then Ram(a - 0xf0000)
    else if Base(m, MCTL_PORT1_SX) == 0xc0000 then Card1(m, a - 0xc0000)
    else if Base(m, MCTL_PORT2_SX) == 0xc0000 then Card2(m, a - 0xc0000)
    else Nothing
  }

  /** `sw` is the controller that owns the bank-switch window at 0x90000. */
  function GxCell(m: Mem, a: nat, sw: nat): Cell
    requires |m.ctl| == NR_MCTL && 0 < |m.port1.data| && 0 < |m.port2.data| && a < ADDR_SPACE
    requires m.bank >= 0 && sw < NR_MCTL
  {
    var ram, size := Base(m, MCTL_SysRAM), Size(m, MCTL_SysRAM);
    var whole := ram == 0x80000 && size == 0xc0000;
    var bank := m.bank * 0x40000;
    if a < 0x10000 then LowPage(m, a)
    else if a < 0x40000 then Rom(a)
    else if a < 0x50000 then (if ram == 0x40000 then Ram(a - 0x40000) else Rom(a))
    else if a < 0x70000 then Rom(a)
    else if a < 0x80000 then
      if a >= 0x7f000 && Base(m, MCTL_BANK_GX) == 0x7f000 then BankSwitch(a - 0x7f000)
      else if 0x7e000 <= a < 0x7f000 && (Base(m, MCTL_PORT1_GX) == 0x7e000 || Base(m, MCTL_PORT2_GX) == 0x7e000)
      then PortControl else Rom(a)
    else if a < 0x90000 then
      if ram == 0x80000 && ((size == 0xfc000 && a < 0x84000) || (size == 0xfe000 && a < 0x82000) ||
                            size == 0xf0000 || size == 0xc0000)
      then Ram(a - 0x80000) else Rom(a)
    else if a < 0xa0000 then
      if Base(m, sw) == 0x90000 && a < 0x91000 then BankSwitch(a - 0x90000)
      else if whole then Ram(a - 0x80000) else Rom(a)
    else if a < 0xb0000 then
      if whole then Ram(a - 0x80000)
      else if Base(m, MCTL_PORT1_GX) == 0xa0000 then Card1(m, a - 0xa0000) else Rom(a)
    else if a < 0xc0000 then
      if whole then Ram(a - 0x80000)
      else if Base(m, MCTL_PORT2_GX) == 0xb0000 then Card2(m, bank + (a - 0xb0000)) else Rom(a)
    else if a < 0xd0000 then
      if ram == 0xc0000 then Ram(a - 0xc0000)
      else if Base(m, MCTL_PORT1_GX) == 0xc0000 then Card1(m, a - 0xc0000)
      else if Base(m, MCTL_PORT2_GX) == 0xc0000 then Card2(m, bank + (a - 0xc0000)) else Rom(a)
    else
      if ram == 0xc0000 && size == 0xc0000 then Ram(a - 0xc0000)
      else if Base(m, MCTL_PORT1_GX) == 0xc0000 && Size(m, MCTL_PORT1_GX) == 0xc0000 then Card1(m, a - 0xc0000)
      else if Base(m, MCTL_PORT2_GX) == 0xc0000 && Size(m, MCTL_PORT2_GX) == 0xc0000
      then Card2(m, bank + (a - 0xc0000)) else Rom(a)
  }

  ghost predicate Mapped(m: Mem)
  {
    |m.ctl| == NR_MCTL && 0 < |m.port1.data| && 0 < |m.port2.data| && m.bank >= 0
  }

  /** The cell that loads see: the bank-switch window at 0x90000 belongs to the device controller. */
  function CellOf(m: Mem, addr: int): Cell
    requires Mapped(m)
  {
    if m.model.SX? then SxCell(m, Masked(addr)) else GxCell(m, Masked(addr), MCTL_MMIO)
  }

  /** The cell that stores see: there the same window belongs to the bank controller. */
  function StoreCellOf(m: Mem, addr: int): Cell
    requires Mapped(m)
  {
    if m.model.SX? then SxCell(m, Masked(addr)) else GxCell(m, Masked(addr), MCTL_BANK_GX)
  }

  /** Loads and stores decode alike except where exactly one of two controllers is based at 0x90000. */
  lemma StoresDecodeLikeLoads(m: Mem, addr: int)
    requires Mapped(m)
    ensures CellOf(m, addr) == StoreCellOf(m, addr) <==>
            !(m.model.GX? && 0x90000 <= Masked(addr) < 0x91000 &&
              (Base(m, MCTL_MMIO) == 0x90000) != (Base(m, MCTL_BANK_GX) == 0x90000))
  {
  }

  ghost predicate InRange(m: Mem, c: Cell)
  {
    match c
    case Rom(a) => a < |m.rom|
    case Ram(i) => i < |m.ram|
    case Port1(i) => i < |m.port1.data|
    case Port2(i) => i < |m.port2.data|
    case Device(a) => 0x100 <= a < 0x140
    case _ => true
  }

  /** No address, in any configuration, reaches outside a buffer. */
  lemma CellInRange(m: Mem, addr: int)
    requires MemOk(m)
    ensures InRange(m, CellOf(m, addr)) && InRange(m, StoreCellOf(m, addr))
  {
  }

  // -------------------------------------------------------------- device registers

  function Nibble(x: int, i: nat): (r: int)
    requires i < 4
    ensures 0 <= r < 16
  {
    match i
    case 0 => x % 16
    case 1 => x / 16 % 16
    case 2 => x / 256 % 16
    case _ => x / 4096 % 16
  }

  function WithNibble(x: int, i: nat, v: int): int
    requires i < 4
  {
    match i
    case 0 => x - x % 16 + v
    case 1 => x + 16 * (v - x / 16 % 16)
    case 2 => x + 256 * (v - x / 256 % 16)
    case _ => x + 4096 * (v - x / 4096 % 16)
  }

  function CalcCrc(crc: int, nib: int): (r: int)
    ensures 0 <= r < 0x10000
  {
    Crc.Step((crc % 0x10000) as bv16, (nib % 0x10000) as bv16) as int
  }

  /** The line counter counts accesses, from 0 to 0x3f with one extra state. */
  function NextLine(c: int): int
  {
    if c + 1 > 0x3f then -1 else c + 1
  }

  function ReadDev(d: Dev, a: nat): (r: (Dev, int))
    requires |d.raw| == 0x40 && Below(d.raw, 16) && 0x100 <= a < 0x140
    ensures 0 <= r.1 < 16
  {
    var o := a - 0x100;
    if 0x104 <= a <= 0x107 then (d, Nibble(d.crc, a - 0x104))
    else if a == 0x113 then (d, 0)
    else if a == 0x114 || a == 0x115 then (d.(raw := d.raw[0x11 := NibAnd(d.raw[0x11], 0xe)]), d.raw[o])
    else if a == 0x116 || a == 0x117 then (d, 0)
    else if a == 0x128 || a == 0x129 then
      var c := NextLine(d.lineCounter);
      (d.(lineCounter := c), Nibble(d.raw[0x29] / 4 * 64 + c % 64, a - 0x128))
    else (d, d.raw[o])
  }

  function WriteDev(d: Dev, a: nat, v: int): (r: Dev)
    requires |d.raw| == 0x40 && Below(d.raw, 16) && 0x100 <= a < 0x140 && 0 <= v < 16
    ensures |r.raw| == 0x40 && Below(r.raw, 16)
  {
    var o := a - 0x100;
    if 0x104 <= a <= 0x107 then d.(crc := WithNibble(d.crc, a - 0x104, v))
    else if a == 0x10f || a == 0x114 || a == 0x115 then d
    else if a == 0x113 then d.(raw := d.raw[0x11 := NibAnd(d.raw[0x11], 0xb)])
    else if a == 0x116 || a == 0x117 then d.(raw := d.raw[o := v][0x12 := NibOr(d.raw[0x12], 1)])
    else if a == 0x128 || a == 0x129 then d.(raw := d.raw[o := v], lineCounter := -1)
    else d.(raw := d.raw[o := v])
  }

  // -------------------------------------------------------------- loads and stores

  function LoadCell(m: Mem, c: Cell): (r: (Mem, int))
    requires InRange(m, c) && |m.dev.raw| == 0x40 && Below(m.dev.raw, 16)
  {
    match c
    case Rom(a) => (m, m.rom[a])
    case Ram(i) => (m, m.ram[i])
    case Port1(i) => (m, m.port1.data[i])
    case Port2(i) => (m, m.port2.data[i])
    case Device(a) => var (d, v) := ReadDev(m.dev, a); (m.(dev := d), v)
    case NoDevice => (m, 0)
    case BankSwitch(o) =>
      (if o == 0 then m.(bank := 0) else if 0x40 <= o < 0x80 then m.(bank := (o - 0x40) / 2) else m, 7)
    case PortControl => (m, 7)
    case Nothing => (m, 0)
  }

  /** Cells whose loads run through the CRC register. */
  predicate Checked(c: Cell)
  {
    c.Rom? || c.Ram? || c.Port1? || c.Port2? || c.NoDevice?
  }

  function StoreCell(m: Mem, c: Cell, v: int): Mem
    requires InRange(m, c) && |m.dev.raw| == 0x40 && Below(m.dev.raw, 16) && 0 <= v < 16
  {
    match c
    case Ram(i) => m.(ram := m.ram[i := v])
    case Port1(i) => if m.port1.isRam then m.(port1 := m.port1.(data := m.port1.data[i := v])) else m
    case Port2(i) => if m.port2.isRam then m.(port2 := m.port2.(data := m.port2.data[i := v])) else m
    case Device(a) => m.(dev := WriteDev(m.dev, a, v))
    case _ => m
  }

  function Load(m: Mem, addr: int): (r: (Mem, int))
    requires MemOk(m)
  {
    CellInRange(m, addr);
    LoadCell(m, CellOf(m, addr))
  }

  function LoadCrc(m: Mem, addr: int): (r: (Mem, int))
    requires MemOk(m)
  {
    var (m', v) := Load(m, addr);
    (if Checked(CellOf(m, addr)) then m'.(dev := m'.dev.(crc := CalcCrc(m'.dev.crc, v))) else m', v)
  }

  function Store(m: Mem, addr: int, val: int): Mem
    requires MemOk(m)
  {
    CellInRange(m, addr);
    StoreCell(m, StoreCellOf(m, addr), Nib(val))
  }

  // ------------------------------------------------------------------- properties

  lemma CrcNibbleFits(x: int, i: nat, v: int)
    requires 0 <= x < 0x10000 && i < 4 && 0 <= v < 16
    ensures 0 <= WithNibble(x, i, v) < 0x10000
  {
    match i
    case 0 =>
    case 1 => NibbleFits(16, 4096, x / 16, x % 16, v);
    case 2 => NibbleFits(256, 256, x / 256, x % 256, v);
    case _ => NibbleFits(4096, 16, x / 4096, x % 4096, v);
  }

  /** The low digit of the upper part of a number replaced. */
  lemma NibbleFits(p: int, bound: int, hi: int, lo: int, v: int)
    requires 0 <= lo < p && 0 <= hi < bound && bound % 16 == 0 && p * bound == 0x10000 && 0 <= v < 16
    ensures 0 <= p * hi + lo + p * (v - hi % 16) < 0x10000
  {
    var top := hi - hi % 16 + v;
    assert 0 <= top < bound;
    MulMono(p, 0, top);
    MulMono(p, top + 1, bound);
    Distribute(p, hi, v - hi % 16);
    Distribute(p, top, 1);
  }

  lemma LoadKeepsOk(m: Mem, addr: int)
    requires MemOk(m)
    ensures MemOk(Load(m, addr).0) && 0 <= Load(m, addr).1 < 16
    ensures MemOk(LoadCrc(m, addr).0) && LoadCrc(m, addr).1 == Load(m, addr).1
    ensures Load(m, addr).0.rom == LoadCrc(m, addr).0.rom == m.rom
    ensures Load(m, addr).0.model == LoadCrc(m, addr).0.model == m.model
  {
    CellInRange(m, addr);
  }

  lemma StoreKeepsOk(m: Mem, addr: int, val: int)
    requires MemOk(m)
    ensures MemOk(Store(m, addr, val)) && Store(m, addr, val).rom == m.rom && Store(m, addr, val).model == m.model
  {
    CellInRange(m, addr);
    match StoreCellOf(m, addr)
    case Device(a) => if 0x104 <= a <= 0x107 { CrcNibbleFits(m.dev.crc, a - 0x104, Nib(val)); }
    case _ =>
  }

  /** The memory cells a store can change. */
  predicate Writable(m: Mem, c: Cell)
  {
    c.Ram? || (c.Port1? && m.port1.isRam) || (c.Port2? && m.port2.isRam)
  }

  /** What is stored in RAM, or in a RAM card, is what is loaded back. */
  lemma LoadAfterStore(m: Mem, addr: int, val: int)
    requires MemOk(m) && Writable(m, CellOf(m, addr)) && CellOf(m, addr) == StoreCellOf(m, addr)
    ensures MemOk(Store(m, addr, val)) && Load(Store(m, addr, val), addr).1 == val % 16
  {
    StoreKeepsOk(m, addr, val);
    StoresDecodeLikeLoads(m, addr);
    CellUnmoved(m, addr, val, addr);
  }

  /** The parts of the state that decide where an address goes. */
  predicate SameMap(m: Mem, n: Mem)
  {
    m.model == n.model && m.ctl == n.ctl && m.bank == n.bank &&
    |m.port1.data| == |n.port1.data| && |m.port2.data| == |n.port2.data|
  }

  lemma SameLowPage(m: Mem, n: Mem, a: nat)
    requires Mapped(m) && SameMap(m, n)
    ensures LowPage(m, a) == LowPage(n, a)
  {
  }

  lemma SameSxCell(m: Mem, n: Mem, a: nat)
    requires Mapped(m) && SameMap(m, n) && a < ADDR_SPACE
    ensures SxCell(m, a) == SxCell(n, a)
  {
    SameLowPage(m, n, a);
  }

  lemma SameGxCell(m: Mem, n: Mem, a: nat, sw: nat)
    requires Mapped(m) && SameMap(m, n) && a < ADDR_SPACE && sw < NR_MCTL
    ensures GxCell(m, a, sw) == GxCell(n, a, sw)
  {
    SameLowPage(m, n, a);
  }

  lemma StoreKeepsMap(m: Mem, addr: int, val: int)
    requires MemOk(m)
    ensures MemOk(Store(m, addr, val)) && SameMap(m, Store(m, addr, val))
  {
    StoreKeepsOk(m, addr, val);
  }

  /** Storing to memory does not move the map. */
  lemma CellUnmoved(m: Mem, addr: int, val: int, other: int)
    requires MemOk(m)
    ensures var m' := Store(m, addr, val);
            MemOk(m') && CellOf(m', other) == CellOf(m, other) && StoreCellOf(m', other) == StoreCellOf(m, other)
  {
    StoreKeepsMap(m, addr, val);
    var m' := Store(m, addr, val);
    SameSxCell(m, m', Masked(other));
    SameGxCell(m, m', Masked(other), MCTL_MMIO);
    SameGxCell(m, m', Masked(other), MCTL_BANK_GX);
  }

  /** A store changes what another address loads only if both decode to the same cell. */
  lemma StoreFrame(m: Mem, addr: int, val: int, other: int)
    requires MemOk(m) && !StoreCellOf(m, addr).Device?
    requires CellOf(m, other) != StoreCellOf(m, addr)
    ensures MemOk(Store(m, addr, val)) && Load(Store(m, addr, val), other).1 == Load(m, other).1
  {
    CellUnmoved(m, addr, val, other);
    CellInRange(m, other);
  }

  /** The CRC-checking load is the plain load plus, on checked cells, one CRC step. */
  lemma CrcLoadIsLoad(m: Mem, addr: int)
    requires MemOk(m)
    ensures var (p, v) := Load(m, addr);
            var (q, w) := LoadCrc(m, addr);
            w == v && q.(dev := q.dev.(crc := p.dev.crc)) == p &&
            q.dev.crc == if Checked(CellOf(m, addr)) then CalcCrc(m.dev.crc, v) else m.dev.crc
  {
    CellInRange(m, addr);
  }

  /**
   While only the bank controller sits at 0x90000 the window is write-protected RAM, and while
   only the device controller sits there it is RAM that loads cannot see.
   */
  lemma WindowMismatch(m: Mem, addr: int, val: int)
    requires MemOk(m) && m.model.GX? && 0x90000 <= Masked(addr) < 0x91000
    requires Base(m, MCTL_SysRAM) == 0x80000 && Size(m, MCTL_SysRAM) == 0xc0000
    ensures Base(m, MCTL_BANK_GX) == 0x90000 != Base(m, MCTL_MMIO) ==>
              Store(m, addr, val) == m && Load(m, addr).1 == m.ram[Masked(addr) - 0x80000]
    ensures Base(m, MCTL_MMIO) == 0x90000 != Base(m, MCTL_BANK_GX) ==>
              Store(m, addr, val).ram[Masked(addr) - 0x80000] == Nib(val) && Load(m, addr).1 == 7
  {
  }

  /** A device register reads back what was written unless it is read-only, write-only or counting. */
  lemma DeviceReadBack(d: Dev, a: nat, v: int)
    requires DevOk(d) && 0x100 <= a < 0x140 && 0 <= v < 16
    requires a != 0x10f && !(0x113 <= a <= 0x117) && a != 0x128 && a != 0x129
    ensures ReadDev(WriteDev(d, a, v), a) == (WriteDev(d, a, v), v)
  {
    if 0x104 <= a <= 0x107 { NibbleOfWithNibble(d.crc, a - 0x104, v); }
  }

  lemma NibbleOfWithNibble(x: int, i: nat, v: int)
    requires 0 <= x < 0x10000 && i < 4 && 0 <= v < 16
    ensures Nibble(WithNibble(x, i, v), i) == v
  {
    match i
    case 0 => SetLowDigit(x, v);
    case 1 => NibbleSet(16, x, v);
    case 2 => NibbleSet(256, x, v);
    case _ => NibbleSet(4096, x, v);
  }

  /** What lies above the lowest digits of a number is not changed with them, and its own low digit can be. */
  lemma NibbleSet(p: int, x: int, v: int)
    requires 0 < p && 0 <= v < 16
    ensures (x + p * (v - x / p % 16)) / p % 16 == v
  {
    var hi, lo := x / p, x % p;
    var h := hi + (v - hi % 16);
    var y := x + p * (v - hi % 16);
    assert x == p * hi + lo;
    Distribute(p, hi, v - hi % 16);
    assert y == lo + p * h && y == y % p + p * (y / p);
    DigitUnique(p, y % p, lo, y / p, h);
    SetLowDigit(hi, v);
  }

  lemma SetLowDigit(q: int, v: int)
    requires 0 <= v < 16
    ensures (q + (v - q % 16)) % 16 == v
  {
    assert q - q % 16 == 16 * (q / 16);
  }

  // ---------------------------------------------------------------- runs of nibbles

  /** The nibbles loaded from `addr` on, lowest address first. */
  function LoadAll(m: Mem, addr: int, n: nat): (r: seq<int>)
    requires MemOk(m)
    ensures |r| == n
  {
    if n == 0 then [] else LoadAll(m, addr, n - 1) + [Load(m, addr + n - 1).1]
  }

  /** Nibbles stored one by one, lowest address first. */
  function StoreAll(m: Mem, addr: int, v: seq<int>): (r: Mem)
    requires MemOk(m)
    ensures MemOk(r)
  {
    if v == [] then m
    else
      var p := StoreAll(m, addr, v[..|v| - 1]);
      StoreKeepsOk(p, addr + |v| - 1, v[|v| - 1]);
      Store(p, addr + |v| - 1, v[|v| - 1])
  }

  lemma StoreNone(m: Mem, addr: int)
    requires MemOk(m)
    ensures StoreAll(m, addr, []) == m
  {
  }

  lemma StoreAllNext(m: Mem, addr: int, v: seq<int>, x: int)
    requires MemOk(m)
    ensures StoreAll(m, addr, v + [x % 16]) == Store(StoreAll(m, addr, v), addr + |v|, x)
  {
    hide CellOf, StoreCellOf, StoreCell, MemOk;
    assert (v + [x % 16])[..|v|] == v;
  }

  /** Nibble i of a run reaches memory that stores can change and loads can see. */
  predicate Plain(m: Mem, addr: int, i: int)
    requires Mapped(m)
  {
    Writable(m, CellOf(m, addr + i)) && CellOf(m, addr + i) == StoreCellOf(m, addr + i)
  }

  /** Nibbles i and j of a run share no cell. */
  predicate Apart(m: Mem, addr: int, i: int, j: int)
    requires Mapped(m)
  {
    CellOf(m, addr + i) != CellOf(m, addr + j)
  }

  lemma StoreKeepsPlain(m: Mem, addr: int, val: int, other: int)
    requires MemOk(m)
    ensures var m' := Store(m, addr, val);
            MemOk(m') && SameMap(m, m') && (Writable(m', CellOf(m, other)) <==> Writable(m, CellOf(m, other)))
  {
    StoreKeepsMap(m, addr, val);
  }

  lemma {:induction false} StoreAllKeepsMap(m: Mem, addr: int, v: seq<int>, other: int)
    requires MemOk(m)
    ensures var m' := StoreAll(m, addr, v);
            CellOf(m', other) == CellOf(m, other) && StoreCellOf(m', other) == StoreCellOf(m, other) &&
            (Writable(m', CellOf(m, other)) <==> Writable(m, CellOf(m, other)))
  {
    hide CellOf, StoreCellOf, Store;
    if v != [] {
      var n := |v| - 1;
      var p := StoreAll(m, addr, v[..n]);
      StoreAllKeepsMap(m, addr, v[..n], other);
      StoreKeepsPlain(p, addr + n, v[n], other);
      CellUnmoved(p, addr + n, v[n], other);
    }
  }

  /** Nibble i of a run loads back, if no later nibble of the run went to the same cell. */
  lemma {:induction false} LoadAfterStoreAll(m: Mem, addr: int, v: seq<int>, i: nat)
    requires MemOk(m) && i < |v|
    requires forall j :: i <= j < |v| ==> Plain(m, addr, j)
    requires forall j :: i < j < |v| ==> Apart(m, addr, j, i)
    ensures Load(StoreAll(m, addr, v), addr + i).1 == Nib(v[i])
  {
    hide CellOf, StoreCellOf, Load, Store;
    var n := |v| - 1;
    var p := StoreAll(m, addr, v[..n]);
    StoreAllKeepsMap(m, addr, v[..n], addr + i);
    StoreAllKeepsMap(m, addr, v[..n], addr + n);
    assert Plain(m, addr, n);
    if i == n {
      LoadAfterStore(p, addr + n, v[n]);
    } else {
      LoadAfterStoreAll(m, addr, v[..n], i);
      assert Apart(m, addr, n, i);
      StoreFrame(p, addr + n, v[n], addr + i);
    }
  }

  lemma {:induction false} LoadAllAt(m: Mem, addr: int, n: nat, i: nat)
    requires MemOk(m) && i < n
    ensures LoadAll(m, addr, n)[i] == Load(m, addr + i).1
  {
    if i < n - 1 { LoadAllAt(m, addr, n - 1, i); }
  }

  /** What a run of stores puts into distinct cells, the same run of loads gets back. */
  lemma ReadBack(m: Mem, addr: int, v: seq<int>)
    requires MemOk(m) && Below(v, 16)
    requires forall i :: 0 <= i < |v| ==> Plain(m, addr, i)
    requires forall i, j :: 0 <= i < j < |v| ==> Apart(m, addr, j, i)
    ensures LoadAll(StoreAll(m, addr, v), addr, |v|) == v
  {
    var m' := StoreAll(m, addr, v);
    forall i | 0 <= i < |v| ensures LoadAll(m', addr, |v|)[i] == v[i] {
      LoadAllAt(m', addr, |v|, i);
      LoadAfterStoreAll(m, addr, v, i);
    }
  }

  /** Outside the cells of the run nothing is changed. */
  lemma {:induction false} StoreAllFrame(m: Mem, addr: int, v: seq<int>, i: int)
    requires MemOk(m)
    requires forall j :: 0 <= j < |v| ==> Plain(m, addr, j) && Apart(m, addr, j, i)
    ensures Load(StoreAll(m, addr, v), addr + i).1 == Load(m, addr + i).1
  {
    hide CellOf, StoreCellOf, Load, Store;
    if v != [] {
      var n := |v| - 1;
      StoreAllFrame(m, addr, v[..n], i);
      StoreAllKeepsMap(m, addr, v[..n], addr + i);
      StoreAllKeepsMap(m, addr, v[..n], addr + n);
      assert Plain(m, addr, n) && Apart(m, addr, n, i);
      StoreFrame(StoreAll(m, addr, v[..n]), addr + n, v[n], addr + i);
    }
  }

  function LoadOk(m: Mem, addr: int): (r: (Mem, int))
    requires MemOk(m)
    ensures MemOk(r.0) && r == Load(m, addr)
  {
    LoadKeepsOk(m, addr);
    Load(m, addr)
  }

  /** Nibbles loaded one by one, highest address first, with what the loads do to the state. */
  function LoadDown(m: Mem, addr: int, n: nat): (r: (Mem, seq<int>))
    requires MemOk(m)
    ensures |r.1| == n
    decreases n
  {
    if n == 0 then (m, [])
    else
      hide *;
      var p := LoadOk(m, addr + n - 1);
      var q := LoadDown(p.0, addr, n - 1);
      (q.0, q.1 + [p.1])
  }

  lemma LoadDownNext(m: Mem, addr: int, n: nat)
    requires MemOk(m)
    ensures LoadDown(m, addr, 0) == (m, [])
    ensures var (p, v) := Load(m, addr + n);
            MemOk(p) && LoadDown(m, addr, n + 1) == (LoadDown(p, addr, n).0, LoadDown(p, addr, n).1 + [v])
  {
    hide Load, MemOk;
    LoadKeepsOk(m, addr + n);
  }

  /** Loads of plain memory have no effect, so their order does not matter. */
  lemma {:induction false} LoadDownPlain(m: Mem, addr: int, n: nat)
    requires MemOk(m) && forall i :: 0 <= i < n ==> Plain(m, addr, i)
    ensures LoadDown(m, addr, n) == (m, LoadAll(m, addr, n))
    decreases n
  {
    if n > 0 {
      assert Plain(m, addr, n - 1);
      LoadPlain(m, addr + n - 1);
      hide CellOf, StoreCellOf, Load;
      LoadDownPlain(m, addr, n - 1);
    }
  }

  /** Cells whose loads change nothing but the CRC. */
  predicate Still(c: Cell)
  {
    !c.BankSwitch? && !(c.Device? && (c.a == 0x114 || c.a == 0x115 || c.a == 0x128 || c.a == 0x129))
  }

  /** Loads from outside the bank-switch window and the two self-changing registers have no effect. */
  lemma StillLoads(m: Mem, addr: int)
    requires MemOk(m) && Still(CellOf(m, addr))
    ensures Load(m, addr).0 == m
  {
    CellInRange(m, addr);
    hide CellOf;
  }

  lemma LoadPlain(m: Mem, addr: int)
    requires MemOk(m) && Writable(m, CellOf(m, addr))
    ensures Load(m, addr).0 == m
  {
  }

  /** A number written in n nibbles is read back. */
  lemma NumberReadBack(m: Mem, addr: int, val: int, n: nat)
    requires MemOk(m) && 0 <= val < Pow(16, n)
    requires forall i :: 0 <= i < n ==> Plain(m, addr, i)
    requires forall i, j :: 0 <= i < j < n ==> Apart(m, addr, j, i)
    ensures var m' := StoreAll(m, addr, Split(val, 16, n));
            Value(LoadDown(m', addr, n).1, 16) == val && LoadDown(m', addr, n).0 == m'
  {
    hide CellOf, StoreCellOf, Load, Store;
    var v := Split(val, 16, n);
    var m' := StoreAll(m, addr, v);
    forall i | 0 <= i < n ensures Plain(m', addr, i) {
      assert Plain(m, addr, i);
      StoreAllKeepsMap(m, addr, v, addr + i);
    }
    LoadDownPlain(m', addr, n);
    SplitBelow(val, 16, n);
    ReadBack(m, addr, v);
    SplitExact(val, 16, n);
  }
}