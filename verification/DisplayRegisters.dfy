/**
 The display registers and the geometry derived from them: derived values are updated register
 write by register write, with tests that skip unchanged values, and are proved to stay what a
 fresh computation from the registers gives.
 */
module DisplayRegisters {
  import opened Digits
  import Redraw

  const NIBBLES_PER_ROW := 0x22

  /** The registers as the processor writes them, several nibbles to a value. */
  datatype Regs = Regs(dispIo: int, contrastCtrl: int, dispTest: int, annunc: int,
                       dispAddr: int, lineOffset: int, lineCount: int, menuAddr: int)

  datatype Display = Display(on: bool, dispStart: int, dispEnd: int, offset: int, lines: int,
                             nibsPerLine: int, contrast: int, menuStart: int, menuEnd: int, annunc: int)

  predicate RegsOk(r: Regs)
  {
    0 <= r.dispIo < 16 && 0 <= r.contrastCtrl < 16 && 0 <= r.dispTest < 0x100 && 0 <= r.annunc < 0x100 &&
    0 <= r.dispAddr < 0x100000 && 0 <= r.lineOffset < 0x1000 && 0 <= r.lineCount < 0x100 &&
    0 <= r.menuAddr < 0x100000
  }

  function NibsPerLine(offset: int, lineOffset: int): int
  {
    (if offset > 3 then NIBBLES_PER_ROW + lineOffset + 2 else NIBBLES_PER_ROW + lineOffset) % 0x1000
  }

  function Lines(lineCount: int): int
  {
    if lineCount % 0x40 == 0 then 63 else lineCount % 0x40
  }

  /** What starting up computes from the registers. */
  function InitDisplay(r: Regs): Display
  {
    var start, offset, lines := r.dispAddr - r.dispAddr % 2, r.dispIo % 8, Lines(r.lineCount);
    var nibs := NibsPerLine(offset, r.lineOffset);
    Display(r.dispIo >= 8, start, start + nibs * (lines + 1), offset, lines, nibs,
            r.contrastCtrl + 16 * (r.dispTest % 2), r.menuAddr, r.menuAddr + 0x110, r.annunc)
  }

  /** What the registers mean: the bits of DISPIO, the even start address, the contrast in two parts, the line count. */
  lemma RegistersMean(r: Regs)
    requires RegsOk(r)
    ensures var d := InitDisplay(r);
            r.dispIo == d.offset + (if d.on then 8 else 0) && 0 <= d.offset < 8 &&
            d.dispStart % 2 == 0 && d.dispStart <= r.dispAddr <= d.dispStart + 1 &&
            d.contrast % 16 == r.contrastCtrl && d.contrast / 16 == r.dispTest % 2 &&
            1 <= d.lines <= 63 && (d.lines == r.lineCount % 64 || (d.lines == 63 && r.lineCount % 64 == 0)) &&
            d.menuStart == r.menuAddr && d.menuEnd - d.menuStart == 8 * 34 && d.annunc == r.annunc &&
            d.dispEnd - d.dispStart == d.nibsPerLine * (d.lines + 1)
  {
    hide NibsPerLine;
  }

  /** A row is two nibbles longer exactly when bit 2 of DISPIO is set. */
  lemma RowsMean(r: Regs)
    requires RegsOk(r)
    ensures InitDisplay(r).nibsPerLine ==
            ((if r.dispIo / 4 % 2 == 1 then 0x24 else 0x22) + r.lineOffset) % 0x1000
  {
  }

  /** The height of the window, which start-up keeps at 110 pixels or more. */
  function InitHeight(d: Display): int
  {
    if 2 * d.lines < 110 then 110 else 2 * d.lines
  }

  /** x with nibble k replaced. */
  function SetNibble(x: int, k: nat, v: int): int
  {
    PowPositive(16, k);
    x + Pow(16, k) * (v - x / Pow(16, k) % 16)
  }

  lemma SetNibbleFits(x: int, k: nat, v: int, n: nat)
    requires k < n <= 5 && 0 <= x < Pow(16, n) && 0 <= v < 16
    ensures 0 <= SetNibble(x, k, v) < Pow(16, n)
  {
    var p, q := Pow(16, k), Pow(16, n - k - 1);
    assert Pow(16, n - k) == 16 * q;
    hide Pow;
    PowPositive(16, k);
    PowPositive(16, n - k - 1);
    PowAdd(16, k, n - k);
    DigitFits(p, q, x, v);
  }

  /** A digit replaced between p and 16 * p leaves a number below p * 16 * q below it. */
  lemma DigitFits(p: int, q: int, x: int, v: int)
    requires 0 < p && 0 < q && 0 <= x < p * (16 * q) && 0 <= v < 16
    ensures 0 <= x + p * (v - x / p % 16) < p * (16 * q)
  {
    var hi, lo := x / p, x % p;
    assert x == p * hi + lo;
    QuotientBelow(x, p, 16 * q);
    var top := hi / 16;
    QuotientBelow(hi, 16, q);
    Distribute(p, hi, v - hi % 16);
    BoundStep(16, v, top, q);
    BoundStep(p, lo, 16 * top + v, 16 * q);
  }

  lemma DivModOf(p: int, lo: int, hi: int)
    requires 0 <= lo < p
    ensures (lo + p * hi) / p == hi && (lo + p * hi) % p == lo
  {
    var x := lo + p * hi;
    assert x == p * (x / p) + x % p;
    DigitUnique(p, x % p, lo, x / p, hi);
  }

  /** Replacing a nibble of the packed value is replacing a digit of the digit string. */
  lemma PackedDigit(d: seq<int>, k: nat, v: int)
    requires k < |d| && Below(d, 16)
    ensures SetNibble(Value(d, 16), k, v) == Value(d[k := v], 16)
  {
    var lo, hi, p := d[..k], d[k + 1..], Pow(16, k);
    PowPositive(16, k);
    ValueBound(lo, 16);
    assert d == lo + ([d[k]] + hi) && d[k := v] == lo + ([v] + hi);
    ValueAppend(lo, [d[k]] + hi, 16);
    ValueAppend(lo, [v] + hi, 16);
    ValueCons(d[k], hi, 16);
    ValueCons(v, hi, 16);
    var h := Value(hi, 16);
    DivModOf(p, Value(lo, 16), d[k] + 16 * h);
    DivModOf(16, d[k], h);
    Distribute(p, d[k] + 16 * h, v - d[k]);
    hide Value, Pow;
  }

  /** A write to a display register. */
  function SetReg(r: Regs, addr: nat, v: int): Regs
  {
    if addr == 0x100 then r.(dispIo := v)
    else if addr == 0x101 then r.(contrastCtrl := v)
    else if 0x102 <= addr <= 0x103 then r.(dispTest := SetNibble(r.dispTest, addr - 0x102, v))
    else if 0x10b <= addr <= 0x10c then r.(annunc := SetNibble(r.annunc, addr - 0x10b, v))
    else if 0x120 <= addr <= 0x124 then r.(dispAddr := SetNibble(r.dispAddr, addr - 0x120, v))
    else if 0x125 <= addr <= 0x127 then r.(lineOffset := SetNibble(r.lineOffset, addr - 0x125, v))
    else if 0x128 <= addr <= 0x129 then r.(lineCount := SetNibble(r.lineCount, addr - 0x128, v))
    else if 0x130 <= addr <= 0x134 then r.(menuAddr := SetNibble(r.menuAddr, addr - 0x130, v))
    else r
  }

  /** A run of register writes, the last one last. */
  function SetRegs(r: Regs, ws: seq<(nat, int)>): Regs
  {
    if ws == [] then r else var n := |ws| - 1; SetReg(SetRegs(r, ws[..n]), ws[n].0, ws[n].1)
  }

  lemma SetRegOk(r: Regs, addr: nat, v: int)
    requires RegsOk(r) && 0 <= v < 16
    ensures RegsOk(SetReg(r, addr, v))
  {
    hide SetNibble;
    assert Pow(16, 2) == 0x100 && Pow(16, 3) == 0x1000 && Pow(16, 5) == 0x100000 by { Powers(); }
    if 0x102 <= addr <= 0x103 { SetNibbleFits(r.dispTest, addr - 0x102, v, 2); }
    else if 0x10b <= addr <= 0x10c { SetNibbleFits(r.annunc, addr - 0x10b, v, 2); }
    else if 0x120 <= addr <= 0x124 { SetNibbleFits(r.dispAddr, addr - 0x120, v, 5); }
    else if 0x125 <= addr <= 0x127 { SetNibbleFits(r.lineOffset, addr - 0x125, v, 3); }
    else if 0x128 <= addr <= 0x129 { SetNibbleFits(r.lineCount, addr - 0x128, v, 2); }
    else if 0x130 <= addr <= 0x134 { SetNibbleFits(r.menuAddr, addr - 0x130, v, 5); }
  }

  lemma Powers()
    ensures Pow(16, 2) == 0x100 && Pow(16, 3) == 0x1000 && Pow(16, 5) == 0x100000
  {
    assert Pow(16, 1) == 16 && Pow(16, 4) == 16 * Pow(16, 3);
  }

  /** The part of the geometry that decides which memory is drawn where. */
  predicate SameDrawing(a: Display, b: Display)
  {
    a.on == b.on && a.dispStart == b.dispStart && a.dispEnd == b.dispEnd && a.offset == b.offset &&
    a.lines == b.lines && a.nibsPerLine == b.nibsPerLine && a.menuStart == b.menuStart && a.menuEnd == b.menuEnd
  }

  class Panel {
    var saturn: Regs
    var display: Display
    var disp_offset: int
    var disp_lines: int
    var old_line_offset: int
    var display_touched: int

    ghost predicate Valid()
      reads this
    {
      RegsOk(saturn) && display == InitDisplay(saturn) && disp_offset == 2 * display.offset &&
      (disp_lines == 2 * display.lines || disp_lines == InitHeight(display)) &&
      (old_line_offset == -1 || old_line_offset == saturn.lineOffset) && display_touched >= 0
    }

    constructor (regs: Regs)
      requires RegsOk(regs)
      ensures Valid() && saturn == regs && disp_lines == InitHeight(display)
    {
      saturn, display := regs, InitDisplay(regs);
      disp_offset := 2 * InitDisplay(regs).offset;
      disp_lines := InitHeight(InitDisplay(regs));
      old_line_offset, display_touched := -1, 1;
    }

    method SetNibsPerLine()
      modifies this
      ensures saturn == old(saturn) && old_line_offset == old(old_line_offset) && disp_lines == old(disp_lines)
      ensures disp_offset == old(disp_offset)
      ensures display == old(display).(nibsPerLine := NibsPerLine(old(display).offset, saturn.lineOffset),
                                       dispEnd := display.dispStart + display.nibsPerLine * (display.lines + 1))
      ensures display_touched == Redraw.DISP_INSTR_OFF
    {
      if display.offset > 3 {
        display := display.(nibsPerLine := (NIBBLES_PER_ROW + saturn.lineOffset + 2) % 0x1000);
      } else {
        display := display.(nibsPerLine := (NIBBLES_PER_ROW + saturn.lineOffset) % 0x1000);
      }
      display := display.(dispEnd := display.dispStart + display.nibsPerLine * (display.lines + 1));
      display_touched := Redraw.DISP_INSTR_OFF;
    }

    method WriteDispIo(val: int)
      requires Valid() && 0 <= val < 16
      modifies this
      ensures Valid() && saturn == old(saturn).(dispIo := val)
      ensures (display == old(display) && display_touched == old(display_touched)) ||
              display_touched == Redraw.DISP_INSTR_OFF
    {
      if val != saturn.dispIo {
        saturn := saturn.(dispIo := val);
        display := display.(on := val >= 8, offset := val % 8);
        disp_offset := 2 * display.offset;
        SetNibsPerLine();
      }
    }

    method WriteDispAddr(k: nat, val: int)
      requires Valid() && k < 5 && 0 <= val < 16
      modifies this
      ensures Valid() && saturn == SetReg(old(saturn), 0x120 + k, val)
      ensures (display == old(display) && display_touched == old(display_touched)) ||
              display_touched == Redraw.DISP_INSTR_OFF
    {
      SetRegOk(saturn, 0x120 + k, val);
      hide SetNibble;
      saturn := saturn.(dispAddr := SetNibble(saturn.dispAddr, k, val));
      if display.dispStart != saturn.dispAddr - saturn.dispAddr % 2 {
        display := display.(dispStart := saturn.dispAddr - saturn.dispAddr % 2);
        display := display.(dispEnd := display.dispStart + display.nibsPerLine * (display.lines + 1));
        display_touched := Redraw.DISP_INSTR_OFF;
      }
    }

    method WriteLineOffset(k: nat, val: int)
      requires Valid() && k < 3 && 0 <= val < 16
      modifies this
      ensures Valid() && saturn == SetReg(old(saturn), 0x125 + k, val)
      ensures (display == old(display) && display_touched == old(display_touched)) ||
              display_touched == Redraw.DISP_INSTR_OFF
    {
      SetRegOk(saturn, 0x125 + k, val);
      hide SetNibble;
      saturn := saturn.(lineOffset := SetNibble(saturn.lineOffset, k, val));
      if saturn.lineOffset != old_line_offset {
        old_line_offset := saturn.lineOffset;
        SetNibsPerLine();
      }
    }

    method WriteLineCount(k: nat, val: int)
      requires Valid() && k < 2 && 0 <= val < 16
      modifies this
      ensures Valid() && saturn == SetReg(old(saturn), 0x128 + k, val)
      ensures (display == old(display) && display_touched == old(display_touched)) ||
              display_touched == Redraw.DISP_INSTR_OFF
      ensures display.lines != old(display.lines) ==> disp_lines == 2 * display.lines
      ensures if old(display.lines) == saturn.lineCount % 0x40 then disp_lines == old(disp_lines)
              else (disp_lines == InitHeight(display) <==> display.lines >= 55)
    {
      SetRegOk(saturn, 0x128 + k, val);
      hide SetNibble;
      saturn := saturn.(lineCount := SetNibble(saturn.lineCount, k, val));
      if display.lines != saturn.lineCount % 0x40 {
        display := display.(lines := saturn.lineCount % 0x40);
        if display.lines == 0 { display := display.(lines := 63); }
        disp_lines := 2 * display.lines;
        HeightDeparts(display);
        display := display.(dispEnd := display.dispStart + display.nibsPerLine * (display.lines + 1));
        display_touched := Redraw.DISP_INSTR_OFF;
      }
    }

    method WriteMenuAddr(k: nat, val: int)
      requires Valid() && k < 5 && 0 <= val < 16
      modifies this
      ensures Valid() && saturn == SetReg(old(saturn), 0x130 + k, val)
      ensures (display == old(display) && display_touched == old(display_touched)) ||
              display_touched == Redraw.DISP_INSTR_OFF
    {
      SetRegOk(saturn, 0x130 + k, val);
      hide SetNibble;
      saturn := saturn.(menuAddr := SetNibble(saturn.menuAddr, k, val));
      if display.menuStart != saturn.menuAddr {
        display := display.(menuStart := saturn.menuAddr, menuEnd := saturn.menuAddr + 0x110);
        display_touched := Redraw.DISP_INSTR_OFF;
      }
    }

    method WriteContrast(addr: nat, val: int)
      requires Valid() && 0x101 <= addr <= 0x103 && 0 <= val < 16
      modifies this
      ensures Valid() && saturn == SetReg(old(saturn), addr, val)
      ensures SameDrawing(display, old(display)) && display_touched == old(display_touched)
    {
      hide NibsPerLine, Lines;
      SetRegOk(saturn, addr, val);
      ContrastParts(saturn.contrastCtrl, saturn.dispTest % 2);
      if addr == 0x101 {
        saturn := saturn.(contrastCtrl := val);
        display := display.(contrast := display.contrast / 16 * 16 + val);
      } else {
        LowBit(saturn.dispTest, addr - 0x102, val);
        hide SetNibble;
        if addr == 0x102 { display := display.(contrast := display.contrast % 16 + val % 2 * 16); }
        saturn := saturn.(dispTest := SetNibble(saturn.dispTest, addr - 0x102, val));
      }
    }

    static lemma ContrastParts(c: int, b: int)
      requires 0 <= c < 16 && 0 <= b <= 1
      ensures (c + 16 * b) / 16 * 16 == 16 * b && (c + 16 * b) % 16 == c
    {
    }

    static lemma LowBit(x: int, k: nat, v: int)
      requires 0 <= x < 0x100 && k < 2 && 0 <= v < 16
      ensures SetNibble(x, k, v) % 2 == if k == 0 then v % 2 else x % 2
    {
      assert Pow(16, 1) == 16 && Pow(16, 0) == 1;
      if k == 0 {
        assert SetNibble(x, 0, v) == x + 1 * (v - x / 1 % 16);
        Even(x / 16, v);
      } else {
        var z := v - x / 16 % 16;
        assert SetNibble(x, 1, v) == x + 16 * z;
        Even(z, x);
      }
    }

    static lemma Even(q: int, v: int)
      ensures (16 * q + v) % 2 == v % 2
    {
    }

    /** A write to any device register, as far as the display is concerned. */
    method WriteDevMem(addr: nat, val: int)
      requires Valid() && 0x100 <= addr < 0x140 && 0 <= val < 16
      modifies this
      ensures Valid() && saturn == SetReg(old(saturn), addr, val)
      ensures SameDrawing(display, old(display)) || display_touched == Redraw.DISP_INSTR_OFF
      ensures display_touched == old(display_touched) || display_touched == Redraw.DISP_INSTR_OFF
      ensures !(0x128 <= addr <= 0x129) ==> display.lines == old(display).lines
    {
      hide SetNibble;
      if addr == 0x100 { WriteDispIo(val); }
      else if 0x101 <= addr <= 0x103 { WriteContrast(addr, val); }
      else if 0x10b <= addr <= 0x10c {
        SetRegOk(saturn, addr, val);
        saturn := saturn.(annunc := SetNibble(saturn.annunc, addr - 0x10b, val));
        display := display.(annunc := saturn.annunc);
      }
      else if 0x120 <= addr <= 0x124 { WriteDispAddr(addr - 0x120, val); }
      else if 0x125 <= addr <= 0x127 { WriteLineOffset(addr - 0x125, val); }
      else if 0x128 <= addr <= 0x129 { WriteLineCount(addr - 0x128, val); }
      else if 0x130 <= addr <= 0x134 { WriteMenuAddr(addr - 0x130, val); }
    }
  }

  /** However many register writes come, the geometry is the one a restart would compute. */
  method WriteAll(p: Panel, ws: seq<(nat, int)>)
    requires p.Valid() && forall i :: 0 <= i < |ws| ==> 0x100 <= ws[i].0 < 0x140 && 0 <= ws[i].1 < 16
    modifies p
    ensures p.Valid() && p.display == InitDisplay(SetRegs(old(p.saturn), ws))
    ensures SameDrawing(p.display, old(p.display)) || p.display_touched == Redraw.DISP_INSTR_OFF
  {
    hide InitDisplay, SetReg, SameDrawing, RegsOk;
    ghost var r, d := p.saturn, p.display;
    SameDrawingRefl(d);
    for i := 0 to |ws|
      invariant p.Valid() && p.saturn == SetRegs(r, ws[..i])
      invariant SameDrawing(p.display, d) || p.display_touched == Redraw.DISP_INSTR_OFF
    {
      assert ws[..i + 1][..i] == ws[..i];
      ghost var before := p.display;
      p.WriteDevMem(ws[i].0, ws[i].1);
      SameDrawingTrans(p.display, before, d);
    }
    assert ws[..|ws|] == ws;
  }

  lemma SameDrawingRefl(a: Display)
    ensures SameDrawing(a, a)
  {
  }

  lemma SameDrawingTrans(a: Display, b: Display, c: Display)
    ensures SameDrawing(a, b) && SameDrawing(b, c) ==> SameDrawing(a, c)
  {
  }

  /** Twice the lines is the height start-up computes only from 55 lines up. */
  lemma HeightDeparts(d: Display)
    ensures 2 * d.lines == InitHeight(d) <==> d.lines >= 55
  {
  }
}
