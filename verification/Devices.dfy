/**
 The device registers with a life of their own: the line counter that advances when it is read,
 and the serial registers whose accesses change the status beside them.
 */
module Devices {
  import opened Digits
  import opened Fields
  import opened DaisyChain
  import opened Memory

  // ----------------------------------------------------------------- the line counter

  /** The two registers that hold the line count when written, and the line counter when read. */
  predicate LineAt(m: Mem, a: int)
    requires Mapped(m)
  {
    CellOf(m, a) == Device(0x128) || CellOf(m, a) == Device(0x129)
  }

  function LoadOne(m: Mem, a: int): (r: Mem)
    requires MemOk(m)
    ensures MemOk(r) && r == Load(m, a).0
  {
    LoadKeepsOk(m, a);
    Load(m, a).0
  }

  /** The memory after loads from some addresses, the last one last. */
  function LoadRun(m: Mem, addrs: seq<int>): (r: Mem)
    requires MemOk(m)
    ensures MemOk(r)
    decreases |addrs|
  {
    if addrs == [] then m
    else
      hide *;
      LoadOne(LoadRun(m, addrs[..|addrs| - 1]), addrs[|addrs| - 1])
  }

  /** One load of the counter: it advances, and runs through one more value than there are lines. */
  lemma LineLoad(m: Mem, a: int)
    requires MemOk(m) && LineAt(m, a)
    ensures var (m', v) := Load(m, a);
            var c := if m.dev.lineCounter >= 63 then -1 else m.dev.lineCounter + 1;
            var line := if c == -1 then 63 else c;
            m' == m.(dev := m.dev.(lineCounter := c)) &&
            v == if CellOf(m, a) == Device(0x128) then line % 16 else 4 * (m.dev.raw[0x29] / 4) + line / 16
  {
    var c := if m.dev.lineCounter >= 63 then -1 else m.dev.lineCounter + 1;
    assert c == NextLine(m.dev.lineCounter) && -1 <= c <= 63;
    LineDigits(m.dev.raw[0x29] / 4, c);
    CellInRange(m, a);
    hide CellOf, Nibble;
  }

  /** The digits that are answered: the counter without its sign, under the top bits. */
  lemma LineDigits(top: int, c: int)
    requires 0 <= top < 4 && -1 <= c <= 63
    ensures var line := if c == -1 then 63 else c;
            Nibble(top * 64 + c % 64, 0) == line % 16 && Nibble(top * 64 + c % 64, 1) == 4 * top + line / 16
  {
  }

  lemma NextTurn(n: nat)
    ensures (n + 1) % 65 == if n % 65 == 64 then 0 else n % 65 + 1
  {
  }

  lemma CountDigits(top: int, line: int)
    requires 0 <= line < 64
    ensures (64 * top + line) % 16 == line % 16 && (64 * top + line) / 16 == 4 * top + line / 16
  {
  }

  lemma LineAtStays(m: Mem, m': Mem, a: int)
    requires MemOk(m) && MemOk(m') && m' == m.(dev := m'.dev)
    ensures CellOf(m', a) == CellOf(m, a)
  {
    SameSxCell(m, m', Masked(a));
    SameGxCell(m, m', Masked(a), MCTL_MMIO);
    hide MemOk, SxCell, GxCell;
  }

  /** Memory with the line counter at a value. */
  function Counting(m: Mem, c: int): Mem { m.(dev := m.dev.(lineCounter := c)) }

  /** A load of the counter at n steps from its start. */
  lemma LineStep(m: Mem, a: int, n: nat)
    requires MemOk(m) && LineAt(m, a)
    ensures var p, line := Counting(m, n % 65 - 1), if n % 65 == 64 then 63 else n % 65;
            MemOk(p) && Load(p, a).0 == Counting(m, (n + 1) % 65 - 1) &&
            Load(p, a).1 == if CellOf(m, a) == Device(0x128) then line % 16 else 4 * (m.dev.raw[0x29] / 4) + line / 16
  {
    var p := Counting(m, n % 65 - 1);
    assert MemOk(p);
    MapOf(m);
    MapOf(p);
    hide MemOk, CellOf, Load, Mapped;
    NextTurn(n);
    LineAtStays(m, p, a);
    LineLoad(p, a);
  }

  /** The counter after n loads since it was cleared: it comes round every sixty-five. */
  lemma {:induction false} LineRun(m: Mem, addrs: seq<int>)
    requires MemOk(m) && m.dev.lineCounter == -1 && forall i :: 0 <= i < |addrs| ==> LineAt(m, addrs[i])
    ensures LoadRun(m, addrs) == Counting(m, |addrs| % 65 - 1)
    decreases |addrs|
  {
    hide MemOk, LineAt, Load;
    if addrs != [] {
      var n := |addrs| - 1;
      LineRun(m, addrs[..n]);
      LineStep(m, addrs[n], n);
    }
  }

  lemma RawLength(m: Mem)
    requires MemOk(m)
    ensures |m.dev.raw| == 0x40
  {
  }

  lemma MapOf(m: Mem)
    requires MemOk(m)
    ensures Mapped(m)
  {
  }

  /** The digit that the last of some loads answers, the counter having been cleared before them. */
  lemma LinesFrom(m: Mem, addrs: seq<int>)
    requires MemOk(m) && m.dev.lineCounter == -1 && addrs != []
    requires forall i :: 0 <= i < |addrs| ==> LineAt(m, addrs[i])
    ensures var n := |addrs| - 1;
            var count := 64 * (m.dev.raw[0x29] / 4) + (if n % 65 == 64 then 63 else n % 65);
            Load(LoadRun(m, addrs[..n]), addrs[n]).1 ==
              if CellOf(m, addrs[n]) == Device(0x128) then count % 16 else count / 16
  {
    var n := |addrs| - 1;
    hide *;
    RawLength(m);
    LineRun(m, addrs[..n]);
    LineStep(m, addrs[n], n);
    CountDigits(m.dev.raw[0x29] / 4, if n % 65 == 64 then 63 else n % 65);
  }

  /**
   After a store to either line-count register the loads of the two count the lines from zero,
   under the top two bits of the line count: the k-th answers a digit of line k - 1, the
   sixty-fifth of line 63 once more, and then it starts over.
   */
  lemma LinesCount(m: Mem, addr: int, v: int, addrs: seq<int>)
    requires MemOk(m) && addrs != []
    requires StoreCellOf(m, addr) == Device(0x128) || StoreCellOf(m, addr) == Device(0x129)
    requires forall i :: 0 <= i < |addrs| ==> LineAt(m, addrs[i])
    ensures MemOk(Store(m, addr, v))
    ensures var n := |addrs| - 1;
            var p := LoadRun(Store(m, addr, v), addrs[..n]);
            var top := if StoreCellOf(m, addr) == Device(0x129) then Nib(v) else m.dev.raw[0x29];
            var count := 64 * (top / 4) + (if n % 65 == 64 then 63 else n % 65);
            Load(p, addrs[n]).1 == if CellOf(m, addrs[n]) == Device(0x128) then count % 16 else count / 16
  {
    hide *;
    RawLength(m);
    LineStore(m, addr, v);
    AllKept(m, addr, v, addrs);
    LinesFrom(Store(m, addr, v), addrs);
  }

  lemma LineAtKept(m: Mem, addr: int, v: int, a: int)
    requires MemOk(m) && LineAt(m, a)
    ensures MemOk(Store(m, addr, v)) && LineAt(Store(m, addr, v), a)
    ensures CellOf(Store(m, addr, v), a) == CellOf(m, a) && Mapped(Store(m, addr, v))
  {
    StoreKeepsOk(m, addr, v);
    CellUnmoved(m, addr, v, a);
    MapOf(Store(m, addr, v));
    hide MemOk, CellOf, Memory.Store, Mapped;
  }

  lemma AllKept(m: Mem, addr: int, v: int, addrs: seq<int>)
    requires MemOk(m) && forall i :: 0 <= i < |addrs| ==> LineAt(m, addrs[i])
    ensures MemOk(Store(m, addr, v)) && Mapped(Store(m, addr, v))
    ensures forall i :: 0 <= i < |addrs| ==>
              LineAt(Store(m, addr, v), addrs[i]) && CellOf(Store(m, addr, v), addrs[i]) == CellOf(m, addrs[i])
  {
    StoreKeepsOk(m, addr, v);
    MapOf(Store(m, addr, v));
    hide MemOk, CellOf, Memory.Store, Mapped, LineAt;
    forall i | 0 <= i < |addrs|
      ensures LineAt(Store(m, addr, v), addrs[i]) && CellOf(Store(m, addr, v), addrs[i]) == CellOf(m, addrs[i])
    {
      LineAtKept(m, addr, v, addrs[i]);
    }
  }

  lemma LineStore(m: Mem, addr: int, v: int)
    requires MemOk(m)
    requires StoreCellOf(m, addr) == Device(0x128) || StoreCellOf(m, addr) == Device(0x129)
    ensures var o := if StoreCellOf(m, addr) == Device(0x128) then 0x28 else 0x29;
            Store(m, addr, v) == m.(dev := m.dev.(raw := m.dev.raw[o := Nib(v)], lineCounter := -1))
  {
    CellInRange(m, addr);
    hide CellOf, StoreCellOf;
  }

  // -------------------------------------------------------------- the serial registers

  lemma AndClears(x: int)
    requires 0 <= x < 16
    ensures NibAnd(x, 0xe) == x - x % 2 && NibAnd(x, 0xb) == x - 4 * (x / 4 % 2) && NibOr(x, 1) == x - x % 2 + 1
  {
    var v := x as bv4;
    assert v & 0xe == v - v % 2;
  }

  /** Reading the received byte clears the low bit of the receive status, and nothing else. */
  lemma ReceiveClears(m: Mem, a: int, reg: nat)
    requires MemOk(m) && CellOf(m, a) == Device(reg) && 0x114 <= reg <= 0x115
    ensures var x := m.dev.raw[0x11];
            Load(m, a) == (m.(dev := m.dev.(raw := m.dev.raw[0x11 := x - x % 2])), m.dev.raw[reg - 0x100])
  {
    CellInRange(m, a);
    AndClears(m.dev.raw[0x11]);
    hide CellOf, NibAnd;
  }

  /** The write-only registers read as zero, without effect. */
  lemma CommandsReadZero(m: Mem, a: int, reg: nat)
    requires MemOk(m) && CellOf(m, a) == Device(reg) && (reg == 0x113 || reg == 0x116 || reg == 0x117)
    ensures Load(m, a) == (m, 0)
  {
    CellInRange(m, a);
    hide CellOf;
  }

  /** A store to 0x113 clears bit 2 of the receive status; a byte to send sets bit 0 of the transmit status. */
  lemma CommandsAct(m: Mem, a: int, v: int, reg: nat)
    requires MemOk(m) && StoreCellOf(m, a) == Device(reg) && (reg == 0x113 || reg == 0x116 || reg == 0x117)
    ensures var x, y := m.dev.raw[0x11], m.dev.raw[0x12];
            Store(m, a, v) ==
              m.(dev := m.dev.(raw := if reg == 0x113 then m.dev.raw[0x11 := x - 4 * (x / 4 % 2)]
                                      else m.dev.raw[reg - 0x100 := Nib(v)][0x12 := y - y % 2 + 1]))
  {
    CellInRange(m, a);
    AndClears(m.dev.raw[0x11]);
    AndClears(m.dev.raw[0x12]);
    hide CellOf, StoreCellOf, NibAnd, NibOr;
  }

  /** Stores to the card status and the received byte do nothing. */
  lemma ReadOnly(m: Mem, a: int, v: int, reg: nat)
    requires MemOk(m) && StoreCellOf(m, a) == Device(reg) && (reg == 0x10f || 0x114 <= reg <= 0x115)
    ensures Store(m, a, v) == m
  {
    CellInRange(m, a);
    hide CellOf, StoreCellOf;
  }
}
