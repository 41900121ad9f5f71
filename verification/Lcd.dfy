/**
 The screen buffers as a cache of display memory: full redraws, the incremental update that
 follows every store to RAM, and the countdown that turns geometry changes into redraws.
 */
module Lcd {
  import opened Digits
  import opened Fields
  import opened Memory
  import opened DaisyChain
  import opened DisplayRegisters
  import Redraw

  const DISP_ROWS := 64
  const NIBS_PER_BUFFER_ROW := 36
  const UNDRAWN := 0xf0

  // ------------------------------------------------------------- what is visible where

  function RowLength(d: Display, row: int): int
  {
    if d.offset > 3 && row <= d.lines then NIBBLES_PER_ROW + 2 else NIBBLES_PER_ROW
  }

  predicate Visible(d: Display, r: int, c: int)
  {
    0 <= r < DISP_ROWS && 0 <= c < RowLength(d, r)
  }

  /** In every panel the length of a row in memory is what is shown of it and the line offset. */
  lemma RowsFit(p: Panel)
    requires p.Valid()
    ensures RowLength(p.display, 0) == if p.saturn.dispIo / 4 % 2 == 1 then 0x24 else 0x22
    ensures p.display.nibsPerLine == (RowLength(p.display, 0) + p.saturn.lineOffset) % 0x1000
  {
    RegistersMean(p.saturn);
    RowsMean(p.saturn);
  }

  /** With no line offset each address of the upper region is shown by exactly one cell of it. */
  lemma ShownOnce(p: Panel, a: int)
    requires p.Valid() && p.saturn.lineOffset == 0 && InDisp(p.display, a)
    ensures p.display.nibsPerLine > 0
    ensures var (y, x) := DispCell(p.display, a);
            Visible(p.display, y, x) && y <= p.display.lines && CellAddr(p.display, y, x) == a &&
            forall r, c :: Visible(p.display, r, c) && r <= p.display.lines && CellAddr(p.display, r, c) == a ==>
              (r, c) == (y, x)
  {
    var d := p.display;
    RowsFit(p);
    InitIsDerived(p.saturn);
    DispCellAddr(d, a);
    var (y, x) := DispCell(d, a);
    RowLengthSame(d, y);
    hide CellAddr, DispCell, InitDisplay, RegsOk;
    forall r, c | Visible(d, r, c) && r <= d.lines && CellAddr(d, r, c) == a ensures (r, c) == (y, x) {
      DispFinds(d, r, c);
    }
  }

  lemma RowLengthSame(d: Display, y: int)
    requires 0 <= y <= d.lines
    ensures RowLength(d, y) == RowLength(d, 0)
  {
  }

  /** The address a visible cell shows. */
  function CellAddr(d: Display, r: int, c: int): int
  {
    if r <= d.lines then d.dispStart + d.nibsPerLine * r + c
    else d.menuStart + NIBBLES_PER_ROW * (r - d.lines - 1) + c
  }

  predicate InDisp(d: Display, a: int) { d.dispStart <= a < d.dispEnd }

  predicate InMenu(d: Display, a: int) { d.menuStart <= a < d.menuEnd }

  /** The cells that the incremental update picks for an address. */
  function DispCell(d: Display, a: int): (int, int)
    requires d.nibsPerLine > 0
  {
    ((a - d.dispStart) / d.nibsPerLine, (a - d.dispStart) % d.nibsPerLine)
  }

  function MenuCell(d: Display, a: int): (int, int)
  {
    (d.lines + (a - d.menuStart) / NIBBLES_PER_ROW + 1, (a - d.menuStart) % NIBBLES_PER_ROW)
  }

  ghost predicate Derived(d: Display)
  {
    1 <= d.lines <= 63 && 0 <= d.nibsPerLine && d.dispEnd == d.dispStart + d.nibsPerLine * (d.lines + 1) &&
    d.menuEnd == d.menuStart + 0x110
  }

  /** The update of the upper region finds every visible cell exactly when rows do not overlap. */
  lemma DispFindsExactly(d: Display)
    requires Derived(d)
    ensures (d.nibsPerLine > 0 && forall r, c :: Visible(d, r, c) && r <= d.lines ==>
               InDisp(d, CellAddr(d, r, c)) && DispCell(d, CellAddr(d, r, c)) == (r, c))
            <==> d.nibsPerLine >= RowLength(d, 0)
  {
    hide CellAddr, DispCell, InDisp;
    var n := d.nibsPerLine;
    if n >= RowLength(d, 0) {
      forall r, c | Visible(d, r, c) && r <= d.lines
        ensures InDisp(d, CellAddr(d, r, c)) && DispCell(d, CellAddr(d, r, c)) == (r, c)
      {
        DispFinds(d, r, c);
      }
    } else if n > 0 {
      NarrowRowsShare(d);
    }
  }

  /** In rows narrower than the screen, cell n of row 0 has the address of cell 0 of row 1. */
  lemma NarrowRowsShare(d: Display)
    requires Derived(d) && 0 < d.nibsPerLine < RowLength(d, 0)
    ensures Visible(d, 0, d.nibsPerLine) && CellAddr(d, 0, d.nibsPerLine) == CellAddr(d, 1, 0)
    ensures DispCell(d, CellAddr(d, 0, d.nibsPerLine)) == (1, 0)
  {
    var n := d.nibsPerLine;
    assert n == n * (n / n) + n % n;
    DigitUnique(n, n % n, 0, n / n, 1);
  }

  lemma DispFinds(d: Display, r: int, c: int)
    requires Derived(d) && d.nibsPerLine >= RowLength(d, 0) && Visible(d, r, c) && r <= d.lines
    ensures d.nibsPerLine > 0 && InDisp(d, CellAddr(d, r, c)) && DispCell(d, CellAddr(d, r, c)) == (r, c)
  {
    var n := d.nibsPerLine;
    var o := CellAddr(d, r, c) - d.dispStart;
    assert o == n * (o / n) + o % n;
    DigitUnique(n, c, o % n, r, o / n);
    MulMono(n, 0, r);
    MulMono(n, r + 1, d.lines + 1);
    Distribute(n, r, 1);
  }

  /** The update of the menu finds every visible cell, inside the buffer, exactly for 55 and 63 lines. */
  lemma MenuFindsExactly(d: Display)
    requires Derived(d)
    ensures (forall r, c :: Visible(d, r, c) && r > d.lines ==>
               InMenu(d, CellAddr(d, r, c)) && MenuCell(d, CellAddr(d, r, c)) == (r, c)) &&
            (d.lines != 63 ==> forall a :: InMenu(d, a) ==> MenuCell(d, a).0 < DISP_ROWS)
            <==> d.lines == 55 || d.lines == 63
  {
    hide CellAddr, MenuCell, InMenu, Visible;
    if d.lines == 55 || d.lines == 63 {
      forall r, c | Visible(d, r, c) && r > d.lines
        ensures InMenu(d, CellAddr(d, r, c)) && MenuCell(d, CellAddr(d, r, c)) == (r, c)
      {
        MenuFinds(d, r, c);
      }
      forall a | InMenu(d, a) && d.lines == 55 ensures MenuCell(d, a).0 < DISP_ROWS { MenuBound(d, a); }
    } else if d.lines < 55 {
      BelowMenu(d);
    } else {
      PastBuffer(d);
    }
  }

  lemma MenuFinds(d: Display, r: int, c: int)
    requires Derived(d) && (d.lines == 55 || d.lines == 63) && Visible(d, r, c) && r > d.lines
    ensures InMenu(d, CellAddr(d, r, c)) && MenuCell(d, CellAddr(d, r, c)) == (r, c)
  {
  }

  lemma MenuBound(d: Display, a: int)
    requires Derived(d) && d.lines == 55 && InMenu(d, a)
    ensures MenuCell(d, a).0 < DISP_ROWS
  {
  }

  lemma BelowMenu(d: Display)
    requires Derived(d) && d.lines < 55
    ensures Visible(d, d.lines + 9, 0) && !InMenu(d, CellAddr(d, d.lines + 9, 0))
  {
  }

  lemma PastBuffer(d: Display)
    requires Derived(d) && 55 < d.lines < 63
    ensures InMenu(d, d.menuEnd - 1) && MenuCell(d, d.menuEnd - 1).0 >= DISP_ROWS
  {
  }

  // ------------------------------------------------------------- what a store does to it

  /** The nibble a load at `a` gives. */
  function Peek(m: Mem, a: int): int
    requires MemOk(m)
  {
    Load(m, a).1
  }

  /** A system-RAM cell is reached through one address only. */
  lemma RamHasOneAddress(m: Mem, a: int, b: int)
    requires MemOk(m) && StoreCellOf(m, a).Ram? && CellOf(m, b) == StoreCellOf(m, a)
    ensures Masked(a) == Masked(b)
  {
    hide MemOk, Masked;
  }

  lemma RamSeenAndStored(m: Mem, a: int)
    requires MemOk(m) && StoreCellOf(m, a).Ram? && CellOf(m, a).Ram?
    ensures StoreCellOf(m, a) == CellOf(m, a)
  {
    StoresDecodeLikeLoads(m, a);
  }

  lemma StoreSeenAtItsAddress(m: Mem, addr: int, val: int, b: int)
    requires MemOk(m) && CellOf(m, b).Ram? && 0 <= b < ADDR_SPACE
    requires StoreCellOf(m, addr).Ram? && Masked(addr) == b
    ensures MemOk(Memory.Store(m, addr, val)) && Peek(Memory.Store(m, addr, val), b) == Nib(val)
  {
    assert Masked(b) == b;
    assert CellOf(m, addr) == CellOf(m, b);
    RamSeenAndStored(m, addr);
    StoreKeepsOk(m, addr, val);
    LoadAfterStore(m, addr, val);
    LoadMaskedAddr(Memory.Store(m, addr, val), addr, b);
  }

  lemma LoadMaskedAddr(m: Mem, x: int, y: int)
    requires MemOk(m) && Masked(x) == Masked(y)
    ensures Load(m, x) == Load(m, y)
  {
    hide MemOk, LoadCell, SxCell, GxCell, Masked;
  }

  /** What a store anywhere does to what is seen at a RAM address. */
  lemma SeenAfterStore(m: Mem, addr: int, val: int, b: int)
    requires MemOk(m) && CellOf(m, b).Ram? && 0 <= b < ADDR_SPACE
    ensures var m' := Memory.Store(m, addr, val);
            MemOk(m') && CellOf(m', b) == CellOf(m, b) &&
            Peek(m', b) == if StoreCellOf(m, addr).Ram? && Masked(addr) == b then Nib(val) else Peek(m, b)
  {
    StoreKeepsOk(m, addr, val);
    CellUnmoved(m, addr, val, b);
    if StoreCellOf(m, addr).Ram? && Masked(addr) == b {
      StoreSeenAtItsAddress(m, addr, val, b);
    } else if StoreCellOf(m, addr).Device? {
      DeviceStoreKeepsRam(m, addr, val, b);
    } else {
      if CellOf(m, b) == StoreCellOf(m, addr) { RamHasOneAddress(m, addr, b); }
      StoreFrame(m, addr, val, b);
    }
  }

  lemma DeviceStoreKeepsRam(m: Mem, addr: int, val: int, b: int)
    requires MemOk(m) && CellOf(m, b).Ram? && StoreCellOf(m, addr).Device?
    ensures MemOk(Memory.Store(m, addr, val)) && Peek(Memory.Store(m, addr, val), b) == Peek(m, b)
  {
    StoreKeepsOk(m, addr, val);
    CellUnmoved(m, addr, val, b);
    hide CellOf, StoreCellOf, MemOk;
  }

  /** The display and the menu lie in mapped RAM, below the top of memory, and rows do not overlap. */
  ghost predicate Good(m: Mem, d: Display)
    requires MemOk(m)
  {
    d.nibsPerLine >= RowLength(d, 0) && (d.lines == 55 || d.lines == 63) &&
    forall r, c :: Visible(d, r, c) ==> InRam(m, CellAddr(d, r, c))
  }

  predicate InRam(m: Mem, a: int)
    requires MemOk(m)
  {
    0 <= a < ADDR_SPACE && CellOf(m, a).Ram?
  }

  lemma GoodUnmoved(m: Mem, addr: int, val: int, d: Display)
    requires MemOk(m)
    ensures MemOk(Memory.Store(m, addr, val)) && (Good(Memory.Store(m, addr, val), d) <==> Good(m, d))
  {
    StoreKeepsOk(m, addr, val);
    forall r, c | Visible(d, r, c)
      ensures InRam(Memory.Store(m, addr, val), CellAddr(d, r, c)) <==> InRam(m, CellAddr(d, r, c))
    {
      CellUnmoved(m, addr, val, CellAddr(d, r, c));
      hide CellOf, MemOk, Memory.Store, CellAddr, Visible;
    }
    hide CellOf, MemOk, Memory.Store, CellAddr, Visible, InRam;
  }

  /** The cell picked for an address of the upper region has that address. */
  lemma DispCellAddr(d: Display, a: int)
    requires Derived(d) && InDisp(d, a)
    ensures d.nibsPerLine > 0
    ensures var (y, x) := DispCell(d, a); 0 <= y <= d.lines && 0 <= x && CellAddr(d, y, x) == a
  {
    var n := d.nibsPerLine;
    QuotientBelow(a - d.dispStart, n, d.lines + 1);
  }

  lemma MenuCellAddr(d: Display, a: int)
    requires Derived(d) && InMenu(d, a) && MenuCell(d, a).0 < DISP_ROWS
    ensures var (y, x) := MenuCell(d, a); d.lines < y < DISP_ROWS && 0 <= x < NIBBLES_PER_ROW && CellAddr(d, y, x) == a
  {
  }

  lemma InitIsDerived(r: Regs)
    requires RegsOk(r)
    ensures Derived(InitDisplay(r))
  {
  }

  /** A run of stores. */
  function StoreSeq(m: Mem, ws: seq<(int, int)>): (r: Mem)
    requires MemOk(m)
    ensures MemOk(r)
  {
    if ws == [] then m
    else
      hide *;
      var p := StoreSeq(m, ws[..|ws| - 1]);
      StoreOk(p, ws[|ws| - 1].0, ws[|ws| - 1].1)
  }

  function StoreOk(m: Mem, addr: int, val: int): (r: Mem)
    requires MemOk(m)
    ensures MemOk(r) && r == Memory.Store(m, addr, val)
  {
    StoreKeepsOk(m, addr, val);
    Memory.Store(m, addr, val)
  }

  lemma {:induction false} SeqKeepsCells(m: Mem, ws: seq<(int, int)>, a: int)
    requires MemOk(m)
    ensures StoreCellOf(StoreSeq(m, ws), a) == StoreCellOf(m, a)
    decreases |ws|
  {
    if ws != [] {
      var n := |ws| - 1;
      SeqKeepsCells(m, ws[..n], a);
      CellUnmoved(StoreSeq(m, ws[..n]), ws[n].0, ws[n].1, a);
      hide MemOk, StoreCellOf, Memory.Store;
    }
  }

  /** The packed display registers are the nibbles the processor sees at 0x100 to 0x13f. */
  ghost predicate Packs(d: Dev, r: Regs)
    requires |d.raw| == 0x40
  {
    r.dispIo == d.raw[0] && r.contrastCtrl == d.raw[1] && r.dispTest == Value(d.raw[0x2..0x4], 16) &&
    r.annunc == Value(d.raw[0xb..0xd], 16) && r.dispAddr == Value(d.raw[0x20..0x25], 16) &&
    r.lineOffset == Value(d.raw[0x25..0x28], 16) && r.lineCount == Value(d.raw[0x28..0x2a], 16) &&
    r.menuAddr == Value(d.raw[0x30..0x35], 16)
  }

  /** Every device write keeps the two forms of the display registers the same. */
  lemma PacksKept(d: Dev, r: Regs, a: nat, v: int)
    requires DevOk(d) && Packs(d, r) && 0x100 <= a < 0x140 && 0 <= v < 16
    ensures Packs(WriteDev(d, a, v), SetReg(r, a, v))
  {
    hide SetNibble, Value;
    var raw := d.raw;
    if 0x102 <= a <= 0x103 { Digit(raw, 0x2, 0x4, a - 0x100, v); }
    else if 0x10b <= a <= 0x10c { Digit(raw, 0xb, 0xd, a - 0x100, v); }
    else if 0x120 <= a <= 0x124 { Digit(raw, 0x20, 0x25, a - 0x100, v); }
    else if 0x125 <= a <= 0x127 { Digit(raw, 0x25, 0x28, a - 0x100, v); }
    else if 0x128 <= a <= 0x129 { Digit(raw, 0x28, 0x2a, a - 0x100, v); }
    else if 0x130 <= a <= 0x134 { Digit(raw, 0x30, 0x35, a - 0x100, v); }
    var raw' := WriteDev(d, a, v).raw;
    if !(0x102 <= a <= 0x103) { assert raw'[0x2..0x4] == raw[0x2..0x4]; }
    if !(0x10b <= a <= 0x10c) { assert raw'[0xb..0xd] == raw[0xb..0xd]; }
    if !(0x120 <= a <= 0x124) { assert raw'[0x20..0x25] == raw[0x20..0x25]; }
    if !(0x125 <= a <= 0x127) { assert raw'[0x25..0x28] == raw[0x25..0x28]; }
    if !(0x128 <= a <= 0x129) { assert raw'[0x28..0x2a] == raw[0x28..0x2a]; }
    if !(0x130 <= a <= 0x134) { assert raw'[0x30..0x35] == raw[0x30..0x35]; }
  }

  lemma Digit(raw: seq<int>, s: nat, e: nat, o: nat, v: int)
    requires s <= o < e <= |raw| && Below(raw, 16)
    ensures Value(raw[o := v][s..e], 16) == SetNibble(Value(raw[s..e], 16), o - s, v)
  {
    PackedDigit(raw[s..e], o - s, v);
    assert raw[o := v][s..e] == raw[s..e][o - s := v];
  }

  // ------------------------------------------------------------------------ the screen

  /**
   One instruction as the screen sees it: its stores, whether it loads from a register that asks
   for a check of the devices, whether it is SHUTDN, and whether another counter calls the scheduler.
   */
  datatype Turn = Turn(stores: seq<(int, int)>, load: bool, shutdown: bool, due: bool)

  class Screen {
    const panel: Panel
    const mapped: bool
    const disp_buf: array2<int>
    const lcd_buffer: array2<int>
    var mem: Mem
    var old_offset: int
    var old_lines: int
    var sched_display: int
    var device_check: bool
    var steps: nat      // instructions since the scheduler last ran
    ghost var lost: bool // a redraw was lost and none has been done since

    ghost predicate Buffers()
    {
      disp_buf != lcd_buffer && disp_buf.Length0 == lcd_buffer.Length0 == DISP_ROWS &&
      disp_buf.Length1 == lcd_buffer.Length1 == NIBS_PER_BUFFER_ROW
    }

    /** A buffered nibble is on the screen. */
    ghost predicate Cached()
      requires Buffers()
      reads disp_buf, lcd_buffer
    {
      forall r, c :: 0 <= r < DISP_ROWS && 0 <= c < NIBS_PER_BUFFER_ROW ==> CachedAt(r, c)
    }

    ghost predicate CachedAt(r: int, c: int)
      requires Buffers() && 0 <= r < DISP_ROWS && 0 <= c < NIBS_PER_BUFFER_ROW
      reads disp_buf, lcd_buffer
    {
      disp_buf[r, c] == UNDRAWN || lcd_buffer[r, c] == disp_buf[r, c]
    }

    ghost predicate Shown(r: int, c: int, v: int)
      requires Buffers() && 0 <= r < DISP_ROWS && 0 <= c < NIBS_PER_BUFFER_ROW
      reads disp_buf, lcd_buffer
    {
      disp_buf[r, c] == v && lcd_buffer[r, c] == v
    }

    ghost predicate RowFresh(d: Display, r: int)
      requires Buffers() && MemOk(mem) && 0 <= r < DISP_ROWS
      reads this`mem, disp_buf, lcd_buffer
    {
      forall c :: 0 <= c < RowLength(d, r) ==> Shown(r, c, Peek(mem, CellAddr(d, r, c)))
    }

    /** Every visible cell shows the nibble its address holds. */
    ghost predicate Fresh(d: Display)
      requires Buffers() && MemOk(mem)
      reads this`mem, disp_buf, lcd_buffer
    {
      forall r :: 0 <= r < DISP_ROWS ==> RowFresh(d, r)
    }

    ghost predicate Valid()
      reads this`mem, panel, disp_buf, lcd_buffer
    {
      panel.Valid() && MemOk(mem) && Buffers() && Cached()
    }

    function Pending(): Redraw.Pending
      reads this`sched_display, this`device_check, panel
    {
      Redraw.Pending(panel.display_touched, sched_display, device_check)
    }

    function Clock(): Redraw.Clock
      reads this, panel
    {
      Redraw.Clock(Pending(), steps)
    }

    /** Unless a redraw is pending or was lost, the screen shows the memory. */
    ghost predicate Inv()
      reads this`mem, this`lost, panel, disp_buf, lcd_buffer
    {
      Valid() &&
      (panel.display_touched == 0 && !lost && mapped && panel.display.on && Good(mem, panel.display) ==>
         Fresh(panel.display))
    }

    /** Start-up: nothing is drawn and a redraw is due. */
    constructor (p: Panel, m: Mem, isMapped: bool)
      requires p.Valid() && p.display_touched == 1 && MemOk(m)
      ensures Inv() && panel == p && mem == m && mapped == isMapped && fresh(disp_buf) && fresh(lcd_buffer)
      ensures Clock() == Redraw.At(Redraw.STARTUP, []) && !lost
    {
      panel, mem, mapped, old_offset, old_lines := p, m, isMapped, -1, -1;
      sched_display, device_check, steps, lost := Redraw.SCHED_NEVER, false, 0, false;
      disp_buf := new int[DISP_ROWS, NIBS_PER_BUFFER_ROW]((_, _) => UNDRAWN);
      lcd_buffer := new int[DISP_ROWS, NIBS_PER_BUFFER_ROW]((_, _) => UNDRAWN);
      new;
      forall r, c | 0 <= r < DISP_ROWS && 0 <= c < NIBS_PER_BUFFER_ROW ensures CachedAt(r, c) {}
    }

    method DrawNibble(c: int, r: int, val: int)
      requires Buffers() && 0 <= r < DISP_ROWS && 0 <= c < NIBS_PER_BUFFER_ROW && 0 <= val < 16
      modifies lcd_buffer
      ensures lcd_buffer[r, c] == val
      ensures forall i, j :: 0 <= i < DISP_ROWS && 0 <= j < NIBS_PER_BUFFER_ROW && (i != r || j != c) ==>
                lcd_buffer[i, j] == old(lcd_buffer[i, j])
    {
      if val != lcd_buffer[r, c] { lcd_buffer[r, c] := val; }
    }

    /** The shared ending of the drawing loops: one cell, through the buffer. */
    method PutNibble(r: int, c: int, v: int)
      requires Buffers() && 0 <= r < DISP_ROWS && 0 <= c < NIBS_PER_BUFFER_ROW && 0 <= v < 16 && Cached()
      modifies disp_buf, lcd_buffer
      ensures Shown(r, c, v) && Cached()
      ensures forall i, j :: 0 <= i < DISP_ROWS && 0 <= j < NIBS_PER_BUFFER_ROW && (i != r || j != c) ==>
                disp_buf[i, j] == old(disp_buf[i, j]) && lcd_buffer[i, j] == old(lcd_buffer[i, j])
    {
      assert CachedAt(r, c);
      if v != disp_buf[r, c] {
        disp_buf[r, c] := v;
        DrawNibble(c, r, v);
      }
      forall i, j | 0 <= i < DISP_ROWS && 0 <= j < NIBS_PER_BUFFER_ROW ensures CachedAt(i, j) {
        assert (i != r || j != c) ==> old(CachedAt(i, j));
      }
    }

    ghost predicate ShownAt(row: int, addr: int, c: int)
      requires Buffers() && MemOk(mem) && 0 <= row < DISP_ROWS && 0 <= c < NIBS_PER_BUFFER_ROW
      reads this`mem, disp_buf, lcd_buffer
    {
      Shown(row, c, Peek(mem, addr + c))
    }

    /** The loop of draw_row. */
    method DrawCells(addr: int, row: int, line_length: int)
      requires Buffers() && Cached() && MemOk(mem) && 0 <= row < DISP_ROWS && 0 <= line_length <= NIBS_PER_BUFFER_ROW
      modifies disp_buf, lcd_buffer
      ensures Cached() && forall c :: 0 <= c < line_length ==> ShownAt(row, addr, c)
      ensures forall i, j :: 0 <= i < DISP_ROWS && 0 <= j < NIBS_PER_BUFFER_ROW && i != row ==>
                disp_buf[i, j] == old(disp_buf[i, j]) && lcd_buffer[i, j] == old(lcd_buffer[i, j])
    {
      hide MemOk, Peek, Cached;
      for i := 0 to line_length
        invariant Cached()
        invariant forall c :: 0 <= c < i ==> ShownAt(row, addr, c)
        invariant forall k, j :: 0 <= k < DISP_ROWS && 0 <= j < NIBS_PER_BUFFER_ROW && k != row ==>
                    disp_buf[k, j] == old(disp_buf[k, j]) && lcd_buffer[k, j] == old(lcd_buffer[k, j])
      {
        PeekBelow(mem, addr + i);
        label Before:
        PutNibble(row, i, Peek(mem, addr + i));
        forall c | 0 <= c < i ensures ShownAt(row, addr, c) { assert old@Before(ShownAt(row, addr, c)); }
      }
    }

    method DrawRow(addr: int, row: int)
      requires Valid() && 0 <= row < DISP_ROWS
      modifies disp_buf, lcd_buffer
      ensures Valid()
      ensures forall c :: 0 <= c < RowLength(panel.display, row) ==> ShownAt(row, addr, c)
      ensures forall i, j :: 0 <= i < DISP_ROWS && 0 <= j < NIBS_PER_BUFFER_ROW && i != row ==>
                disp_buf[i, j] == old(disp_buf[i, j]) && lcd_buffer[i, j] == old(lcd_buffer[i, j])
    {
      var line_length := NIBBLES_PER_ROW;
      if panel.display.offset > 3 && row <= panel.display.lines { line_length := line_length + 2; }
      hide MemOk, Cached, ShownAt;
      DrawCells(addr, row, line_length);
    }

    static lemma PeekBelow(m: Mem, a: int)
      requires MemOk(m)
      ensures 0 <= Peek(m, a) < 16
    {
      LoadKeepsOk(m, a);
    }

    /** memset over whole rows */
    method Fill(b: array2<int>, r0: nat, r1: nat, v: int)
      requires b.Length0 == DISP_ROWS && b.Length1 == NIBS_PER_BUFFER_ROW && r0 <= r1 <= DISP_ROWS
      modifies b
      ensures forall i, j :: 0 <= i < DISP_ROWS && 0 <= j < NIBS_PER_BUFFER_ROW ==>
                b[i, j] == if r0 <= i < r1 then v else old(b[i, j])
    {
      for r := r0 to r1
        invariant forall i, j :: 0 <= i < DISP_ROWS && 0 <= j < NIBS_PER_BUFFER_ROW ==>
                    b[i, j] == if r0 <= i < r then v else old(b[i, j])
      {
        for c := 0 to NIBS_PER_BUFFER_ROW
          invariant forall i, j :: 0 <= i < DISP_ROWS && 0 <= j < NIBS_PER_BUFFER_ROW ==>
                      b[i, j] == if r0 <= i < r || (i == r && j < c) then v else old(b[i, j])
        {
          b[r, c] := v;
        }
      }
    }

    /** Forgets some rows of both buffers. */
    method Forget(r0: nat, r1: nat)
      requires Valid() && r0 <= r1 <= DISP_ROWS
      modifies disp_buf, lcd_buffer
      ensures Valid()
    {
      hide MemOk;
      Fill(disp_buf, r0, r1, UNDRAWN);
      Fill(lcd_buffer, r0, r1, UNDRAWN);
      forall r, c | 0 <= r < DISP_ROWS && 0 <= c < NIBS_PER_BUFFER_ROW ensures CachedAt(r, c) {
        assert old(CachedAt(r, c));
      }
    }

    ghost predicate RowsFresh(d: Display, n: int)
      requires Buffers() && MemOk(mem) && n <= DISP_ROWS
      reads this`mem, disp_buf, lcd_buffer
    {
      forall r :: 0 <= r < n ==> RowFresh(d, r)
    }

    /** One more row drawn. */
    method DrawNext(addr: int, row: int, ghost d: Display)
      requires Valid() && 0 <= row < DISP_ROWS && d == panel.display && RowsFresh(d, row)
      requires addr == CellAddr(d, row, 0)
      modifies disp_buf, lcd_buffer
      ensures Valid() && RowsFresh(d, row + 1)
    {
      DrawRow(addr, row);
      hide MemOk, Cached, Peek;
      forall c | 0 <= c < RowLength(d, row) ensures Shown(row, c, Peek(mem, CellAddr(d, row, c))) {
        assert ShownAt(row, addr, c);
      }
      hide CellAddr;
      forall r | 0 <= r < row ensures RowFresh(d, r) { assert old(RowFresh(d, r)); }
    }

    /** The drawing loops of update_display. */
    method DrawAll()
      requires Valid() && Derived(panel.display)
      modifies disp_buf, lcd_buffer
      ensures Valid() && Fresh(panel.display)
    {
      ghost var d := panel.display;
      var addr := panel.display.dispStart;
      var i := 0;
      hide MemOk, Cached, RowFresh;
      while i <= panel.display.lines
        invariant Valid() && panel.display == d && 0 <= i <= d.lines + 1 && RowsFresh(d, i)
        invariant addr == d.dispStart + d.nibsPerLine * i
      {
        DrawNext(addr, i, d);
        Distribute(d.nibsPerLine, i, 1);
        addr := addr + panel.display.nibsPerLine;
        i := i + 1;
      }
      if i < DISP_ROWS {
        addr := panel.display.menuStart;
        while i < DISP_ROWS
          invariant Valid() && panel.display == d && d.lines + 1 <= i <= DISP_ROWS && RowsFresh(d, i)
          invariant addr == d.menuStart + NIBBLES_PER_ROW * (i - d.lines - 1)
        {
          DrawNext(addr, i, d);
          addr := addr + NIBBLES_PER_ROW;
          i := i + 1;
        }
      }
    }

    /** A full redraw: the screen shows the memory, or nothing when the display is off. */
    method UpdateDisplay()
      requires Valid()
      modifies this`old_offset, this`old_lines, disp_buf, lcd_buffer
      ensures Valid()
      ensures mapped && panel.display.on ==> Fresh(panel.display)
      ensures mapped && !panel.display.on ==>
                forall r, c :: 0 <= r < DISP_ROWS && 0 <= c < NIBBLES_PER_ROW ==> lcd_buffer[r, c] == 0
    {
      InitIsDerived(panel.saturn);
      hide MemOk, Derived, InitDisplay, RegsOk;
      if !mapped { return; }
      if panel.display.on {
        if panel.display.offset != old_offset {
          LinesFit(panel.display);
          Forget(0, panel.display.lines + 1);
          old_offset := panel.display.offset;
        }
        if panel.display.lines != old_lines {
          Forget(56, 64);
          old_lines := panel.display.lines;
        }
        DrawAll();
      } else {
        Blank();
      }
    }

    static lemma LinesFit(d: Display)
      requires Derived(d)
      ensures 1 <= d.lines <= 63
    {
    }

    ghost predicate Undrawn()
      requires Buffers()
      reads disp_buf
    {
      forall r, c :: 0 <= r < DISP_ROWS && 0 <= c < NIBS_PER_BUFFER_ROW ==> disp_buf[r, c] == UNDRAWN
    }

    method Blank()
      requires Valid()
      modifies disp_buf, lcd_buffer
      ensures Valid()
      ensures forall r, c :: 0 <= r < DISP_ROWS && 0 <= c < NIBBLES_PER_ROW ==> lcd_buffer[r, c] == 0
    {
      hide MemOk;
      Fill(disp_buf, 0, DISP_ROWS, UNDRAWN);
      for i := 0 to DISP_ROWS
        invariant forall r, c :: 0 <= r < i && 0 <= c < NIBBLES_PER_ROW ==> lcd_buffer[r, c] == 0
        invariant Undrawn()
      {
        for j := 0 to NIBBLES_PER_ROW
          invariant forall r, c :: 0 <= r < DISP_ROWS && 0 <= c < NIBBLES_PER_ROW && (r < i || (r == i && c < j)) ==>
                      lcd_buffer[r, c] == 0
          invariant Undrawn()
        {
          DrawNibble(j, i, 0x00);
        }
      }
      forall r, c | 0 <= r < DISP_ROWS && 0 <= c < NIBS_PER_BUFFER_ROW ensures CachedAt(r, c) {}
    }

    // ------------------------------------------------------------ the incremental update

    /** The part of the upper region's update after its cell is found; columns past 35 are not drawn. */
    method DispDrawNibble(addr: int, val: int)
      requires Valid() && InDisp(panel.display, addr) && 0 <= val < 16 && panel.display.nibsPerLine > 0
      requires DispCell(panel.display, addr).0 < DISP_ROWS
      modifies disp_buf, lcd_buffer
      ensures Valid()
      ensures var (y, x) := DispCell(panel.display, addr);
              (0 <= y < DISP_ROWS && 0 <= x < NIBS_PER_BUFFER_ROW ==> Shown(y, x, val)) &&
              forall i, j :: 0 <= i < DISP_ROWS && 0 <= j < NIBS_PER_BUFFER_ROW && (i, j) != (y, x) ==>
                disp_buf[i, j] == old(disp_buf[i, j]) && lcd_buffer[i, j] == old(lcd_buffer[i, j])
    {
      hide MemOk, Cached;
      var offset := addr - panel.display.dispStart;
      var x := offset % panel.display.nibsPerLine;
      if x < 0 || x > 35 { return; }
      var y := offset / panel.display.nibsPerLine;
      if y < 0 || y > 63 { return; }
      PutNibble(y, x, val);
    }

    method MenuDrawNibble(addr: int, val: int)
      requires Valid() && InMenu(panel.display, addr) && 0 <= val < 16
      requires 0 <= MenuCell(panel.display, addr).0 < DISP_ROWS
      modifies disp_buf, lcd_buffer
      ensures Valid()
      ensures var (y, x) := MenuCell(panel.display, addr);
              Shown(y, x, val) &&
              forall i, j :: 0 <= i < DISP_ROWS && 0 <= j < NIBS_PER_BUFFER_ROW && (i, j) != (y, x) ==>
                disp_buf[i, j] == old(disp_buf[i, j]) && lcd_buffer[i, j] == old(lcd_buffer[i, j])
    {
      hide MemOk, Cached;
      var offset := addr - panel.display.menuStart;
      var x := offset % NIBBLES_PER_ROW;
      var y := panel.display.lines + (offset / NIBBLES_PER_ROW) + 1;
      PutNibble(y, x, val);
    }

    ghost predicate ShownCell(d: Display, r: int, c: int)
      requires Buffers() && MemOk(mem) && 0 <= r < DISP_ROWS && 0 <= c < NIBS_PER_BUFFER_ROW
      reads this`mem, disp_buf, lcd_buffer
    {
      Shown(r, c, Peek(mem, CellAddr(d, r, c)))
    }

    /** Every visible cell in some rows is fresh, except perhaps those of one address. */
    ghost predicate FreshExcept(d: Display, a: int, r0: int, r1: int)
      requires Buffers() && MemOk(mem)
      reads this`mem, disp_buf, lcd_buffer
    {
      forall r, c :: Visible(d, r, c) && r0 <= r < r1 && CellAddr(d, r, c) != a ==> ShownCell(d, r, c)
    }

    ghost predicate FreshRows(d: Display, r0: int, r1: int)
      requires Buffers() && MemOk(mem)
      reads this`mem, disp_buf, lcd_buffer
    {
      forall r, c :: Visible(d, r, c) && r0 <= r < r1 ==> ShownCell(d, r, c)
    }

    /** Where an address is visible it holds v. */
    ghost predicate Holds(d: Display, a: int, v: int)
      requires MemOk(mem)
      reads this`mem
    {
      forall r, c :: Visible(d, r, c) && CellAddr(d, r, c) == a ==> Peek(mem, a) == v
    }

    /** The update of the upper region draws for the address, inside the buffer. */
    predicate Draws(d: Display, a: int)
    {
      InDisp(d, a) && d.nibsPerLine > 0 && 0 <= DispCell(d, a).0 <= d.lines && d.lines < DISP_ROWS &&
      0 <= DispCell(d, a).1 < NIBS_PER_BUFFER_ROW
    }

    ghost predicate Lit(d: Display, a: int, v: int)
      requires Buffers()
      reads disp_buf, lcd_buffer
    {
      Draws(d, a) ==> Shown(DispCell(d, a).0, DispCell(d, a).1, v)
    }

    /** After the upper region's update its rows are fresh, and the menu's no less than before. */
    method DispStep(a: int, v: int, ghost d: Display, ghost good: bool)
      requires Valid() && d == panel.display && Derived(d) && 0 <= v < 16
      requires good ==> d.nibsPerLine >= RowLength(d, 0) && Holds(d, a, v) && FreshExcept(d, a, 0, DISP_ROWS)
      modifies disp_buf, lcd_buffer
      ensures Valid()
      ensures good ==> FreshRows(d, 0, d.lines + 1) && FreshExcept(d, a, d.lines + 1, DISP_ROWS)
      ensures Lit(d, a, v)
    {
      hide MemOk, Cached, Peek;
      if InDisp(panel.display, a) {
        DispCellAddr(d, a);
        DispDrawNibble(a, v);
        forall r, c | good && Visible(d, r, c) && r <= d.lines ensures ShownCell(d, r, c) {
          DispFinds(d, r, c);
          hide CellAddr, DispCell;
          if CellAddr(d, r, c) != a { assert old(ShownCell(d, r, c)); }
        }
        forall r, c | good && Visible(d, r, c) && d.lines < r && CellAddr(d, r, c) != a ensures ShownCell(d, r, c) {
          hide CellAddr;
          assert old(ShownCell(d, r, c));
        }
      } else {
        forall r, c | good && Visible(d, r, c) && r <= d.lines ensures ShownCell(d, r, c) {
          DispFinds(d, r, c);
          hide CellAddr;
        }
      }
    }

    method MenuStep(a: int, v: int, ghost d: Display, ghost good: bool)
      requires Valid() && d == panel.display && Derived(d) && 0 <= v < 16
      requires InMenu(d, a) ==> MenuCell(d, a).0 < DISP_ROWS
      requires good ==> d.lines == 55 && d.nibsPerLine >= RowLength(d, 0) && Holds(d, a, v)
      requires good ==> FreshRows(d, 0, d.lines + 1) && FreshExcept(d, a, d.lines + 1, DISP_ROWS)
      modifies disp_buf, lcd_buffer
      ensures Valid()
      ensures good ==> FreshRows(d, 0, DISP_ROWS)
      ensures old(Lit(d, a, v)) ==> Lit(d, a, v)
    {
      hide MemOk, Cached, Peek;
      if InMenu(panel.display, a) {
        MenuCellAddr(d, a);
        MenuDrawNibble(a, v);
        forall r, c | good && Visible(d, r, c) ensures ShownCell(d, r, c) {
          if r > d.lines { MenuFinds(d, r, c); }
          hide CellAddr, MenuCell;
          if r <= d.lines || CellAddr(d, r, c) != a { assert old(ShownCell(d, r, c)); }
        }
      } else {
        forall r, c | good && Visible(d, r, c) ensures ShownCell(d, r, c) {
          if r > d.lines { MenuFinds(d, r, c); }
          hide CellAddr;
        }
      }
    }

    /** Row-wise and cell-wise freshness are the same. */
    lemma FreshIsRows(d: Display)
      requires Buffers() && MemOk(mem)
      ensures Fresh(d) <==> FreshRows(d, 0, DISP_ROWS)
    {
      hide MemOk, Peek, CellAddr;
      if Fresh(d) {
        forall r, c | Visible(d, r, c) ensures ShownCell(d, r, c) { assert RowFresh(d, r); }
      }
      if FreshRows(d, 0, DISP_ROWS) {
        forall r | 0 <= r < DISP_ROWS ensures RowFresh(d, r) {
          forall c | 0 <= c < RowLength(d, r) ensures Shown(r, c, Peek(mem, CellAddr(d, r, c))) {
            assert Visible(d, r, c) && ShownCell(d, r, c);
          }
        }
      }
    }

    /** Memory changes under a fresh screen: only the cells of the address stored to can be stale. */
    method StoreUnderneath(addr: int, val: int)
      requires Valid()
      modifies this`mem
      ensures Valid() && mem == Memory.Store(old(mem), addr, val)
      ensures var d, c := panel.display, StoreCellOf(old(mem), addr);
              Good(mem, d) <==> old(Good(mem, panel.display))
      ensures var d := panel.display;
              old(Fresh(panel.display) && Good(mem, panel.display)) ==>
                if StoreCellOf(old(mem), addr).Ram?
                then FreshExcept(d, Masked(addr), 0, DISP_ROWS) && Holds(d, Masked(addr), Nib(val))
                else FreshRows(d, 0, DISP_ROWS)
    {
      ghost var m, d := mem, panel.display;
      StoreKeepsOk(mem, addr, val);
      GoodUnmoved(m, addr, val, d);
      FreshIsRows(d);
      hide MemOk, Cached, Peek, Fresh, CellAddr, CellOf, StoreCellOf, Memory.Store;
      mem := Memory.Store(mem, addr, val);
      if old(Fresh(panel.display) && Good(mem, panel.display)) {
        forall r, c | Visible(d, r, c) && (StoreCellOf(m, addr).Ram? ==> CellAddr(d, r, c) != Masked(addr))
          ensures ShownCell(d, r, c)
        {
          assert old(ShownCell(panel.display, r, c)) && InRam(m, CellAddr(d, r, c));
          SeenAfterStore(m, addr, val, CellAddr(d, r, c));
        }
        forall r, c | Visible(d, r, c) && StoreCellOf(m, addr).Ram? && CellAddr(d, r, c) == Masked(addr)
          ensures Peek(mem, Masked(addr)) == Nib(val)
        {
          assert InRam(m, CellAddr(d, r, c));
          SeenAfterStore(m, addr, val, CellAddr(d, r, c));
        }
      }
    }

    lemma SameDrawingShows(d: Display, e: Display)
      requires Buffers() && MemOk(mem) && SameDrawing(d, e)
      ensures Good(mem, d) <==> Good(mem, e)
      ensures FreshRows(d, 0, DISP_ROWS) <==> FreshRows(e, 0, DISP_ROWS)
    {
      forall r, c ensures Visible(d, r, c) == Visible(e, r, c) && CellAddr(d, r, c) == CellAddr(e, r, c) {}
      hide MemOk, Peek, CellAddr, Visible, InRam;
      forall r, c | Visible(d, r, c) ensures ShownCell(d, r, c) <==> ShownCell(e, r, c) {}
    }

    static lemma DeviceAddr(m: Mem, addr: int)
      requires MemOk(m) && StoreCellOf(m, addr).Device?
      ensures 0x100 <= Masked(addr) < 0x140
    {
      hide MemOk;
    }

    /** What follows a store that reached system RAM. */
    method Tail(a: int, v: int, ghost good: bool)
      requires Valid() && 0 <= v < 16
      requires panel.display.lines != 63 && InMenu(panel.display, a) ==> MenuCell(panel.display, a).0 < DISP_ROWS
      requires good ==> panel.display.nibsPerLine >= RowLength(panel.display, 0)
      requires good ==> panel.display.lines == 55 || panel.display.lines == 63
      requires good ==> Holds(panel.display, a, v) && FreshExcept(panel.display, a, 0, DISP_ROWS)
      modifies disp_buf, lcd_buffer
      ensures Valid()
      ensures good ==> FreshRows(panel.display, 0, DISP_ROWS)
      ensures Lit(panel.display, a, v)
    {
      InitIsDerived(panel.saturn);
      ghost var d := panel.display;
      hide MemOk, Cached, Derived, Holds, Lit;
      DispStep(a, v, d, good);
      if panel.display.lines == 63 { return; }
      MenuStep(a, v, d, good);
    }

    /** A device write under a screen that was fresh, or had a reason not to be. */
    method DeviceStore(a: int, v: int)
      requires Inv() && 0x100 <= a < 0x140 && 0 <= v < 16
      modifies panel
      ensures Inv()
      ensures SameDrawing(panel.display, old(panel.display)) || panel.display_touched == Redraw.DISP_INSTR_OFF
      ensures panel.display_touched == old(panel.display_touched) ||
              panel.display_touched == Redraw.DISP_INSTR_OFF
    {
      ghost var d := panel.display;
      FreshIsRows(d);
      hide MemOk, Cached, Fresh, Good, FreshRows, SameDrawing;
      panel.WriteDevMem(a, v);
      if SameDrawing(panel.display, d) {
        SameDrawingShows(panel.display, d);
        SameOn(panel.display, d);
        FreshIsRows(panel.display);
      }
    }

    static lemma SameOn(d: Display, e: Display)
      requires SameDrawing(d, e)
      ensures d.on == e.on
    {
    }

    /** The menu's update stays inside the buffer; between 55 and 63 lines a store can make it leave. */
    predicate Fits(addr: int)
      requires MemOk(mem)
      reads this, panel
    {
      (StoreCellOf(mem, addr).Ram? && panel.display_touched == 0 && mapped && panel.display.lines != 63 &&
       InMenu(panel.display, Masked(addr))) ==>
        MenuCell(panel.display, Masked(addr)).0 < DISP_ROWS
    }

    lemma FitsExactly(d: Display)
      requires Valid() && d == panel.display && panel.display_touched == 0 && mapped && !(55 < d.lines < 63)
      ensures forall addr :: Fits(addr)
    {
      InitIsDerived(panel.saturn);
      forall addr ensures Fits(addr) { hide StoreCellOf; }
    }

    /** A store to system RAM under a fresh screen leaves it fresh. */
    method RamStore(addr: int, val: int)
      requires Inv() && StoreCellOf(mem, addr).Ram? && Fits(addr)
      modifies this`mem, disp_buf, lcd_buffer
      ensures Inv() && mem == Memory.Store(old(mem), addr, val)
      ensures panel.display_touched == 0 && mapped ==> Lit(panel.display, Masked(addr), Nib(val))
    {
      ghost var d, good := panel.display, Fresh(panel.display) && Good(mem, panel.display);
      if good { GoodParts(mem, d); }
      StoreUnderneath(addr, val);
      hide MemOk, Cached, Fresh, Good, FreshRows, FreshExcept, Derived, StoreCellOf, Memory.Store, Holds, Lit;
      if panel.display_touched != 0 || !mapped { return; }
      Tail(Masked(addr), Nib(val), good);
      FreshIsRows(d);
    }

    /** A store anywhere else leaves it fresh too. */
    method OtherStore(addr: int, val: int)
      requires Inv() && !StoreCellOf(mem, addr).Ram?
      modifies this`mem
      ensures Inv() && mem == Memory.Store(old(mem), addr, val)
    {
      StoreUnderneath(addr, val);
      FreshIsRows(panel.display);
      hide MemOk, Cached, Fresh, Good, FreshRows, StoreCellOf, Memory.Store;
    }

    /** A store by the processor, with the tail that keeps the screen up to date. */
    method WriteNibble(addr: int, val: int)
      requires Inv() && Fits(addr)
      modifies this`mem, this`device_check, panel, disp_buf, lcd_buffer
      ensures Inv() && mem == Memory.Store(old(mem), addr, val)
      ensures !StoreCellOf(old(mem), addr).Device? ==>
                panel.display == old(panel.display) && panel.display_touched == old(panel.display_touched)
      ensures SameDrawing(panel.display, old(panel.display)) || panel.display_touched == Redraw.DISP_INSTR_OFF
      ensures panel.display_touched == old(panel.display_touched) ||
              panel.display_touched == Redraw.DISP_INSTR_OFF
      ensures device_check == (old(device_check) || StoreCellOf(old(mem), addr).Device?)
      ensures StoreCellOf(old(mem), addr).Ram? && panel.display_touched == 0 && mapped ==>
                Lit(panel.display, Masked(addr), Nib(val))
    {
      var cell := StoreCellOf(mem, addr);
      if cell.Device? { DeviceAddr(mem, addr); }
      hide MemOk, Inv, StoreCellOf, Memory.Store, Lit;
      if cell.Ram? {
        RamStore(addr, val);
      } else {
        OtherStore(addr, val);
        if cell.Device? {
          device_check := true;
          DeviceStore(Masked(addr), Nib(val));
        }
      }
    }

    static lemma GoodParts(m: Mem, d: Display)
      requires MemOk(m) && Good(m, d)
      ensures d.nibsPerLine >= RowLength(d, 0) && (d.lines == 55 || d.lines == 63)
    {
    }

    /**
     With the display off a full redraw leaves the screen blank, and a store to the display area
     lights a cell all the same, exactly when the nibble stored is not zero.
     */
    method OffStoreLights(addr: int, val: int)
      requires Inv() && mapped && !panel.display.on && panel.display_touched == 0 && Fits(addr)
      requires StoreCellOf(mem, addr).Ram? && Draws(panel.display, Masked(addr))
      requires DispCell(panel.display, Masked(addr)).1 < NIBBLES_PER_ROW
      modifies this`mem, this`device_check, this`old_offset, this`old_lines, panel, disp_buf, lcd_buffer
      ensures Buffers() && panel.display == old(panel.display) && panel.display.nibsPerLine > 0
      ensures var (y, x) := DispCell(panel.display, Masked(addr));
              0 <= y < DISP_ROWS && 0 <= x < NIBS_PER_BUFFER_ROW && (lcd_buffer[y, x] == 0 <==> Nib(val) == 0)
    {
      hide MemOk, Cached, Fresh, Good, InitDisplay, RegsOk, StoreCellOf, Memory.Store, DispCell;
      UpdateDisplay();
      ghost var (y, x) := DispCell(panel.display, Masked(addr));
      assert lcd_buffer[y, x] == 0;
      WriteNibble(addr, val);
    }

    /**
     Moving memory under a screen leaves it equal to memory exactly when every visible address
     still holds the nibble it held.
     */
    method Remap(ctl: seq<Ctl>)
      requires Valid() && Shape(ctl) && Fresh(panel.display)
      modifies this`mem
      ensures Valid() && mem == old(mem).(ctl := ctl)
      ensures var d := panel.display;
              Fresh(d) <==> forall r, c :: Visible(d, r, c) ==>
                Peek(mem, CellAddr(d, r, c)) == Peek(old(mem), CellAddr(d, r, c))
    {
      ghost var m, d := mem, panel.display;
      FreshIsRows(d);
      MapOk(m, ctl);
      hide MemOk, Cached, Peek, Fresh, CellAddr, Shape;
      mem := mem.(ctl := ctl);
      FreshIsRows(d);
      forall r, c | Visible(d, r, c) ensures disp_buf[r, c] == lcd_buffer[r, c] == Peek(m, CellAddr(d, r, c)) {
        assert old(ShownCell(panel.display, r, c));
      }
    }

    static lemma MapOk(m: Mem, ctl: seq<Ctl>)
      requires MemOk(m) && Shape(ctl)
      ensures MemOk(m.(ctl := ctl))
    {
    }

    // ------------------------------------------------------------------- pending redraws

    /** The display part of check_devices: one off the countdown, and the redraw when it runs out. */
    method CheckDevices()
      requires Valid()
      modifies this`old_offset, this`old_lines, this`device_check, panel, disp_buf, lcd_buffer
      ensures Valid() && panel.display == old(panel.display)
      ensures panel.display_touched == if old(panel.display_touched) > 0 then old(panel.display_touched) - 1 else 0
      ensures device_check == (old(device_check) || panel.display_touched > 0)
      ensures old(panel.display_touched) == 1 && mapped && panel.display.on ==> Fresh(panel.display)
      ensures old(panel.display_touched) != 1 ==> Untouched()
    {
      hide MemOk, Cached, Fresh, Good, InitDisplay, RegsOk;
      if panel.display_touched > 0 {
        if panel.display_touched == 1 {
          panel.display_touched := 0;
          UpdateDisplay();
        } else {
          panel.display_touched := panel.display_touched - 1;
        }
      }
      if panel.display_touched > 0 { device_check := true; }
    }

    /** Both buffers are as they were. */
    twostate predicate Untouched()
      reads disp_buf, lcd_buffer
    {
      unchanged(disp_buf) && unchanged(lcd_buffer)
    }

    /** The countdown is charged with the batch when the scheduler's own has run out. */
    method Charge()
      requires Valid()
      modifies this`sched_display, this`device_check, panel
      ensures Valid() && panel.display == old(panel.display) && !device_check
      ensures panel.display_touched == Redraw.Charged(old(Pending()), steps)
    {
      hide MemOk, Cached, InitDisplay, RegsOk;
      device_check := false;
      sched_display := sched_display - steps;
      if sched_display <= 0 {
        if panel.display_touched != 0 { panel.display_touched := panel.display_touched - steps; }
        if panel.display_touched < 0 { panel.display_touched := 1; }
      }
    }

    /** The display section of the scheduler: the countdown is charged with the batch, then checked. */
    method Schedule()
      requires Inv()
      modifies this`old_offset, this`old_lines, this`sched_display, this`device_check, this`steps, this`lost
      modifies panel, disp_buf, lcd_buffer
      ensures Inv() && panel.display == old(panel.display) && steps == 0
      ensures Pending() == Redraw.Batch(old(Pending()), old(steps))
      ensures lost <==> Redraw.Drops(old(Pending()), old(steps)) ||
                        (old(lost) && !Redraw.Redraws(old(Pending()), old(steps)))
    {
      ghost var p := Pending();
      lost := Redraw.Drops(p, steps) || (lost && !Redraw.Redraws(p, steps));
      hide MemOk, Cached, Fresh, Good, InitDisplay, RegsOk;
      if device_check {
        Charge();
        hide Redraw.Charged;
        CheckDevices();
        sched_display := Redraw.SCHED_NEVER;
        if panel.display_touched != 0 && panel.display_touched < sched_display {
          sched_display := panel.display_touched - 1;
        }
      }
      steps := 0;
    }

    /** SHUTDN draws what is pending at once. */
    method Shutdown()
      requires Inv()
      modifies this`old_offset, this`old_lines, this`lost, panel, disp_buf, lcd_buffer
      ensures Inv() && panel.display == old(panel.display) && panel.display_touched == 0
      ensures lost <==> old(lost) && old(panel.display_touched) == 0
    {
      hide MemOk, Cached, Fresh, Good, InitDisplay, RegsOk;
      if panel.display_touched != 0 {
        panel.display_touched := 0;
        UpdateDisplay();
        lost := false;
      }
    }

    /** The stores of one instruction, up to one that would leave the buffer. */
    method Stores(ws: seq<(int, int)>) returns (fit: bool, access: bool)
      requires Inv()
      modifies this`mem, this`device_check, panel, disp_buf, lcd_buffer
      ensures Inv() && (device_check <==> old(device_check) || access)
      ensures panel.display_touched == old(panel.display_touched) ||
              (panel.display_touched == Redraw.DISP_INSTR_OFF && access)
      ensures SameDrawing(panel.display, old(panel.display)) || panel.display_touched == Redraw.DISP_INSTR_OFF
      ensures fit ==> mem == StoreSeq(old(mem), ws) && (access <==> Touches(old(mem), ws))
      ensures !fit ==> 55 < panel.display.lines < 63
    {
      ghost var m, d := mem, panel.display;
      SameDrawingRefl(d);
      StoreSeqNone(m);
      hide MemOk, Inv, SameDrawing, StoreCellOf, Memory.Store, StoreSeq, Touches;
      access := false;
      for i := 0 to |ws|
        invariant Inv() && mem == StoreSeq(m, ws[..i]) && (device_check <==> old(device_check) || access)
        invariant access <==> Touches(m, ws[..i])
        invariant panel.display_touched == old(panel.display_touched) ||
                  (panel.display_touched == Redraw.DISP_INSTR_OFF && access)
        invariant SameDrawing(panel.display, d) || panel.display_touched == Redraw.DISP_INSTR_OFF
      {
        InvMem();
        if !Fits(ws[i].0) {
          MisfitLines(ws[i].0);
          return false, access;
        }
        ghost var before := panel.display;
        StoreSeqNext(m, ws, i);
        access := access || StoreCellOf(mem, ws[i].0).Device?;
        WriteNibble(ws[i].0, ws[i].1);
        SameDrawingTrans(panel.display, before, d);
      }
      assert ws[..|ws|] == ws;
      fit := true;
    }

    /** One of the stores reaches a device register. */
    static ghost predicate Touches(m: Mem, ws: seq<(int, int)>)
      requires MemOk(m)
    {
      exists k :: 0 <= k < |ws| && StoreCellOf(m, ws[k].0).Device?
    }

    static lemma TouchesSame(m: Mem, vs: seq<(int, int)>, ws: seq<(int, int)>)
      requires MemOk(m)
      ensures Touches(StoreSeq(m, vs), ws) <==> Touches(m, ws)
      ensures StoreSeq(StoreSeq(m, vs), ws) == StoreSeq(m, vs + ws)
    {
      forall k | 0 <= k < |ws| ensures StoreCellOf(StoreSeq(m, vs), ws[k].0) == StoreCellOf(m, ws[k].0) {
        SeqKeepsCells(m, vs, ws[k].0);
      }
      StoreSeqAppend(m, vs, ws);
      hide MemOk, StoreCellOf;
    }

    static lemma {:induction false} StoreSeqAppend(m: Mem, vs: seq<(int, int)>, ws: seq<(int, int)>)
      requires MemOk(m)
      ensures StoreSeq(StoreSeq(m, vs), ws) == StoreSeq(m, vs + ws)
      decreases |ws|
    {
      hide MemOk, Memory.Store;
      if ws == [] {
        assert vs + ws == vs;
      } else {
        var n := |ws| - 1;
        StoreSeqAppend(m, vs, ws[..n]);
        assert (vs + ws)[..|vs| + n] == vs + ws[..n];
      }
    }

    lemma InvMem()
      requires Inv()
      ensures MemOk(mem)
    {
    }

    lemma MisfitLines(addr: int)
      requires Inv() && MemOk(mem) && !Fits(addr)
      ensures 55 < panel.display.lines < 63
    {
      InitIsDerived(panel.saturn);
      hide StoreCellOf, MemOk, Good, Fresh, Cached;
    }

    static lemma StoreSeqNone(m: Mem)
      requires MemOk(m)
      ensures StoreSeq(m, []) == m && !Touches(m, [])
    {
    }

    static lemma StoreSeqStep(m: Mem, ws: seq<(int, int)>, i: nat)
      requires MemOk(m) && i < |ws|
      ensures StoreSeq(m, ws[..i + 1]) == Memory.Store(StoreSeq(m, ws[..i]), ws[i].0, ws[i].1)
    {
      assert ws[..i + 1][..i] == ws[..i];
      hide MemOk, Memory.Store;
    }

    static lemma TouchesNext(m: Mem, ws: seq<(int, int)>, i: nat)
      requires MemOk(m) && i < |ws|
      ensures Touches(m, ws[..i + 1]) <==> Touches(m, ws[..i]) || StoreCellOf(m, ws[i].0).Device?
    {
      hide MemOk, StoreCellOf;
      forall k | 0 <= k < i ensures ws[..i + 1][k] == ws[..i][k] {}
      assert ws[..i + 1][i] == ws[i];
    }

    static lemma StoreSeqNext(m: Mem, ws: seq<(int, int)>, i: nat)
      requires MemOk(m) && i < |ws|
      ensures var p := StoreSeq(m, ws[..i]);
              StoreSeq(m, ws[..i + 1]) == Memory.Store(p, ws[i].0, ws[i].1) &&
              (Touches(m, ws[..i + 1]) <==> Touches(m, ws[..i]) || StoreCellOf(p, ws[i].0).Device?)
    {
      hide *;
      StoreSeqStep(m, ws, i);
      TouchesNext(m, ws, i);
      SeqKeepsCells(m, ws[..i], ws[i].0);
    }

    /** One instruction of the emulator's loop, and the scheduler if it is called after it. */
    method Instruction(t: Turn) returns (fit: bool, ghost i: Redraw.Instr)
      requires Inv() && Redraw.Reachable(Clock())
      modifies this`mem, this`old_offset, this`old_lines, this`sched_display, this`device_check, this`steps
      modifies this`lost, panel, disp_buf, lcd_buffer
      ensures !fit ==> 55 < panel.display.lines < 63
      ensures fit ==> Inv() && Clock() == Redraw.Tick(old(Clock()), i) && i.shutdown == t.shutdown
      ensures fit ==> mem == StoreSeq(old(mem), t.stores) && i.due == t.due
      ensures fit ==> (i.access <==> t.load || Touches(old(mem), t.stores)) && (i.geometry ==> i.access)
      ensures fit ==> (lost <==> Redraw.DropsAt(old(Clock()), i) || (old(lost) && !Redraw.RedrawsAt(old(Clock()), i)))
      ensures fit && !SameDrawing(panel.display, old(panel.display)) ==> i.geometry
    {
      ghost var k := Clock();
      hide Inv, SameDrawing, StoreSeq, Touches, Redraw.Batch, Redraw.Redraws, Redraw.Drops;
      var access;
      fit, access := Stores(t.stores);
      if !fit { return fit, Redraw.PLAIN; }
      if t.load { device_check := true; }
      i := Redraw.Instr(panel.display_touched != k.p.touched, access || t.load, t.shutdown, t.due);
      if t.shutdown { Shutdown(); }
      assert Pending() == Redraw.Touch(k.p, i);
      steps := steps + 1;
      if access || t.load || t.due || steps >= Max(1, sched_display) || steps >= Redraw.SCHED_INSTR_ROLLOVER {
        Schedule();
      }
    }

    /** The countdown and the loss are those of the pure model after `run`. */
    ghost predicate Follows(run: seq<Redraw.Instr>)
      reads this, panel
    {
      Clock() == Redraw.At(Redraw.STARTUP, run) && (lost <==> Redraw.Lost(Redraw.STARTUP, run))
    }

    method Next(t: Turn, ghost run: seq<Redraw.Instr>) returns (fit: bool, ghost i: Redraw.Instr)
      requires Inv() && Follows(run)
      modifies this`mem, this`old_offset, this`old_lines, this`sched_display, this`device_check, this`steps
      modifies this`lost, panel, disp_buf, lcd_buffer
      ensures !fit ==> 55 < panel.display.lines < 63
      ensures fit ==> Inv() && Follows(run + [i]) && Means(i, t, old(mem)) && mem == StoreSeq(old(mem), t.stores)
    {
      hide MemOk, Inv, SameDrawing, Touches, StoreSeq;
      hide Redraw.Tick, Redraw.DropsAt, Redraw.RedrawsAt, Redraw.At, Redraw.Lost, Redraw.Reachable;
      Redraw.AtReachable(Redraw.STARTUP, run);
      fit, i := Instruction(t);
      Redraw.AtNext(Redraw.STARTUP, run, i);
    }

    /**
     A run of the machine as the screen sees it: stores, SHUTDNs and calls of the scheduler, up
     to a store that would leave the buffer.  The countdown is the one of the pure model.
     */
    method Run(script: seq<Turn>) returns (done: nat, ghost run: seq<Redraw.Instr>)
      requires Inv() && Clock() == Redraw.At(Redraw.STARTUP, []) && !lost
      modifies this`mem, this`old_offset, this`old_lines, this`sched_display, this`device_check, this`steps
      modifies this`lost, panel, disp_buf, lcd_buffer
      ensures |run| == done <= |script| && (done < |script| ==> 55 < panel.display.lines < 63)
      ensures AllMean(run, script, old(mem))
      ensures done == |script| ==> ShowsUnlessLost(run) && mem == StoreSeq(old(mem), AllStores(script))
    {
      done, run := 0, [];
      ghost var m := mem;
      StoreSeqNone(m);
      assert Follows(run) && AllMean(run, script, m) && AllStores(script[..0]) == [];
      hide MemOk, Inv, Means, StoreSeq, Follows, ShowsUnlessLost, AllStores, AllMean;
      while done < |script|
        invariant |run| == done <= |script| && Inv() && Follows(run)
        invariant AllMean(run, script, m)
        invariant mem == StoreSeq(m, AllStores(script[..done]))
      {
        var fit;
        ghost var i;
        fit, i := Next(script[done], run);
        if !fit { return; }
        ScriptNext(run, i, script, m);
        run := run + [i];
        done := done + 1;
      }
      assert script[..done] == script;
      ShowsByInv(run);
    }

    static function AllStores(script: seq<Turn>): seq<(int, int)>
      decreases |script|
    {
      if script == [] then [] else AllStores(script[..|script| - 1]) + script[|script| - 1].stores
    }

    /** What the countdown's model says of an instruction is what it does. */
    static ghost predicate Means(i: Redraw.Instr, t: Turn, m: Mem)
      requires MemOk(m)
    {
      i.shutdown == t.shutdown && i.due == t.due && (i.access <==> t.load || Touches(m, t.stores)) &&
      (i.geometry ==> i.access)
    }

    static ghost predicate AllMean(run: seq<Redraw.Instr>, script: seq<Turn>, m: Mem)
      requires MemOk(m)
    {
      |run| <= |script| && forall i :: 0 <= i < |run| ==> Means(run[i], script[i], m)
    }

    static lemma ScriptNext(run: seq<Redraw.Instr>, i: Redraw.Instr, script: seq<Turn>, m: Mem)
      requires MemOk(m) && |run| < |script| && AllMean(run, script, m)
      ensures var p, t := StoreSeq(m, AllStores(script[..|run|])), script[|run|];
              StoreSeq(p, t.stores) == StoreSeq(m, AllStores(script[..|run| + 1])) &&
              (Means(i, t, p) ==> AllMean(run + [i], script, m))
    {
      hide MemOk, Touches, StoreSeq;
      var n := |run|;
      TouchesSame(m, AllStores(script[..n]), script[n].stores);
      assert script[..n + 1][..n] == script[..n];
      hide AllStores;
    }

    /** The screen shows the memory if nothing is pending and the run has lost no redraw since its last one. */
    ghost predicate ShowsUnlessLost(run: seq<Redraw.Instr>)
      reads this, panel, disp_buf, lcd_buffer
    {
      Inv() && Clock() == Redraw.At(Redraw.STARTUP, run) &&
      ((panel.display_touched == 0 && !Redraw.Lost(Redraw.STARTUP, run) && mapped && panel.display.on &&
        Good(mem, panel.display)) ==>
         Fresh(panel.display))
    }

    lemma ShowsByInv(run: seq<Redraw.Instr>)
      requires Inv() && Follows(run)
      ensures ShowsUnlessLost(run)
    {
      hide MemOk, Good, Fresh, Cached;
    }

    /**
     Ninety-two instructions after the last change of the geometry the screen shows the memory,
     unless that change was the second of two fourteen instructions apart.
     */
    lemma Settles(run: seq<Redraw.Instr>, m: nat)
      requires ShowsUnlessLost(run) && m < |run| - 92 && Redraw.Changes(run[m])
      requires forall j :: m < j < |run| ==> !run[j].geometry
      requires mapped && panel.display.on && Good(mem, panel.display)
      ensures panel.display_touched == 0 && (Redraw.LostAfter(Redraw.STARTUP, run, m) || Fresh(panel.display))
    {
      Redraw.RunsOut(Redraw.STARTUP, run, m);
      Redraw.AtReachable(Redraw.STARTUP, run);
      hide Inv, Good, Fresh, Redraw.At, Redraw.Lost, Redraw.LostAfter;
    }

    /** After any run of stores to memory the screen is what a full redraw would make it. */
    method WriteAll(ws: seq<(int, int)>)
      requires Inv() && panel.display_touched == 0 && !lost
      requires mapped && panel.display.on && Good(mem, panel.display)
      requires forall i :: 0 <= i < |ws| ==> !StoreCellOf(mem, ws[i].0).Device?
      modifies this`mem, this`device_check, panel, disp_buf, lcd_buffer
      ensures Inv() && Fresh(panel.display) && panel.display == old(panel.display)
      ensures mem == StoreSeq(old(mem), ws)
    {
      ghost var m := mem;
      assert StoreSeq(m, []) == m;
      for i := 0 to |ws|
        invariant Inv() && mem == StoreSeq(m, ws[..i])
        invariant panel.display == old(panel.display) && panel.display_touched == 0 && Good(mem, panel.display)
      {
        hide MemOk, Cached, Fresh, Good, StoreCellOf, Memory.Store;
        assert ws[..i + 1][..i] == ws[..i];
        SeqKeepsCells(m, ws[..i], ws[i].0);
        GoodUnmoved(mem, ws[i].0, ws[i].1, panel.display);
        GoodParts(mem, panel.display);
        FitsExactly(panel.display);
        WriteNibble(ws[i].0, ws[i].1);
      }
      assert ws[..|ws|] == ws;
    }
  }
}
