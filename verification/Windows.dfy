/**
 What the two memory maps show through their windows: where the RAM and the cards appear for the
 bases and sizes that the operating system gives them, and where the real-time record lies in RAM.
 */
module Windows {
  import opened Digits
  import opened Fields
  import opened DaisyChain
  import opened Memory
  import Timer

  /** Low memory is ROM but for the sixty-four device registers. */
  lemma LowMemory(m: Mem, a: int)
    requires Mapped(m) && 0 <= a < 0x10000
    ensures CellOf(m, a) == StoreCellOf(m, a)
    ensures CellOf(m, a) ==
              if a < 0x100 || a >= 0x140 then Rom(a) else if m.ctl[0].config0 == 0x100 then Device(a) else NoDevice
  {
  }

  /** The sizes that the maps know for RAM at its usual base. */
  predicate KnownSize(m: Mem, size: int)
  {
    size == 0xf0000 || size == 0xfc000 || size == 0xfe000 || (m.model.GX? && size == 0xc0000)
  }

  /** The part of the map behind which the bank switch lies for loads, and for stores, while a controller claims it. */
  predicate Switches(m: Mem, a: int, sw: nat)
    requires Mapped(m) && sw < 6
  {
    m.model.GX? && m.ctl[sw].config0 == 0x90000 && 0x90000 <= a < 0x91000
  }

  /**
   RAM at its usual base fills its window, whose length is what its size leaves of the address
   space, and shows nowhere else.
   */
  lemma RamWindow(m: Mem, a: int)
    requires Mapped(m) && 0 <= a < 0x100000
    requires m.ctl[1].config0 == (if m.model.SX? then 0x70000 else 0x80000) && KnownSize(m, m.ctl[1].config1)
    ensures var base := m.ctl[1].config0;
            var inside := base <= a < base + (0x100000 - m.ctl[1].config1);
            (CellOf(m, a).Ram? <==> inside && !Switches(m, a, 0)) &&
            (CellOf(m, a).Ram? ==> CellOf(m, a) == Ram(a - base)) &&
            (StoreCellOf(m, a).Ram? <==> inside && !Switches(m, a, 2)) &&
            (StoreCellOf(m, a).Ram? ==> StoreCellOf(m, a) == Ram(a - base))
  {
  }

  /** RAM at the other bases that the maps know. */
  lemma RamElsewhere(m: Mem, a: int)
    requires Mapped(m) && 0 <= a < 0x100000
    requires var b := m.ctl[1].config0; if m.model.SX? then b == 0xf0000 else b == 0x40000 || b == 0xc0000
    ensures var base := m.ctl[1].config0;
            var long := base == 0xc0000 && m.ctl[1].config1 == 0xc0000;
            var inside := base <= a < base + (if long then 0x40000 else 0x10000);
            (CellOf(m, a).Ram? <==> inside) && (inside ==> CellOf(m, a) == StoreCellOf(m, a) == Ram(a - base))
  {
  }

  /** RAM at a base that the maps do not know shows nowhere. */
  lemma RamNowhere(m: Mem, a: int)
    requires Mapped(m) && 0 <= a < 0x100000
    requires var b := m.ctl[1].config0;
             if m.model.SX? then b != 0x70000 && b != 0xf0000 else b != 0x40000 && b != 0x80000 && b != 0xc0000
    ensures !CellOf(m, a).Ram? && !StoreCellOf(m, a).Ram?
  {
  }

  /** The window of a card on the SX: a quarter of the address space from its base. */
  predicate InQuarter(m: Mem, c: nat, a: int)
    requires Mapped(m) && c < 6
  {
    var b := m.ctl[c].config0;
    (b == 0x80000 || b == 0xc0000) && b <= a < b + 0x40000
  }

  /** Cards on the SX: the first is seen before the second, and RAM before both. */
  lemma CardsOnSx(m: Mem, a: int)
    requires Mapped(m) && m.model.SX? && 0 <= a < 0x100000
    ensures CellOf(m, a).Port1? <==> InQuarter(m, 2, a) && !CellOf(m, a).Ram?
    ensures CellOf(m, a).Port1? ==> CellOf(m, a) == Port1((a - m.ctl[2].config0) % |m.port1.data|)
    ensures CellOf(m, a).Port2? <==> InQuarter(m, 3, a) && !InQuarter(m, 2, a) && !CellOf(m, a).Ram?
    ensures CellOf(m, a).Port2? ==> CellOf(m, a) == Port2((a - m.ctl[3].config0) % |m.port2.data|)
    ensures CellOf(m, a) == Nothing <==>
              a >= 0x80000 && !InQuarter(m, 2, a) && !InQuarter(m, 3, a) && !CellOf(m, a).Ram?
  {
  }

  /** The window of a card on the GX: a sixteenth at its own base or at C0000, where the largest take all the rest. */
  predicate InSixteenth(m: Mem, c: nat, own: int, a: int)
    requires Mapped(m) && c < 6
  {
    var b := m.ctl[c].config0;
    (b == own && own <= a < own + 0x10000) ||
    (b == 0xc0000 && 0xc0000 <= a < if m.ctl[c].config1 == 0xc0000 then 0x100000 else 0xd0000)
  }

  /** Cards on the GX: RAM hides both and the first hides the second, seen a bank of 128 kilobytes at a time. */
  lemma CardsOnGx(m: Mem, a: int)
    requires Mapped(m) && m.model.GX? && 0 <= a < 0x100000
    ensures CellOf(m, a).Port1? <==> InSixteenth(m, 3, 0xa0000, a) && !CellOf(m, a).Ram?
    ensures CellOf(m, a).Port1? ==> CellOf(m, a) == Port1((a - m.ctl[3].config0) % |m.port1.data|)
    ensures CellOf(m, a).Port2? <==>
              InSixteenth(m, 4, 0xb0000, a) && !InSixteenth(m, 3, 0xa0000, a) && !CellOf(m, a).Ram?
    ensures CellOf(m, a).Port2? ==>
              CellOf(m, a) == Port2((m.bank * 0x40000 + (a - m.ctl[4].config0)) % |m.port2.data|)
    ensures CellOf(m, a) != Nothing
  {
  }

  /** On the GX every address that shows nothing else shows its own nibble of the ROM. */
  lemma RomOnGx(m: Mem, a: int)
    requires Mapped(m) && m.model.GX? && 0x10000 <= a < 0x100000
    ensures CellOf(m, a).Rom? ==> CellOf(m, a) == Rom(a)
    ensures !CellOf(m, a).Device? && !CellOf(m, a).NoDevice?
    ensures CellOf(m, a).BankSwitch? <==>
              Switches(m, a, 0) || (0x7f000 <= a < 0x80000 && m.ctl[2].config0 == 0x7f000)
    ensures CellOf(m, a).BankSwitch? ==> CellOf(m, a) == BankSwitch(a % 0x1000)
    ensures CellOf(m, a) == PortControl <==>
              0x7e000 <= a < 0x7f000 && (m.ctl[3].config0 == 0x7e000 || m.ctl[4].config0 == 0x7e000)
  {
  }

  /**
   The real-time record in the memory map: with RAM at its usual base the addresses of the
   operating system's variables are the places that the emulator writes at start-up.
   */
  lemma TimerRecord(m: Mem, i: nat)
    requires Mapped(m) && KnownSize(m, m.ctl[1].config1) && i < 13
    requires m.ctl[1].config0 == if m.model.SX? then 0x70000 else 0x80000
    ensures var p := Timer.PlacesOf(m.model.GX?);
            if m.model.SX? then
              CellOf(m, 0x70052 + i) == Ram(p.accesstime + i) &&
              (i < 4 ==> CellOf(m, 0x7005f + i) == Ram(p.accesscrc + i)) &&
              CellOf(m, 0x70063 + i) == Ram(p.timeout + i) && CellOf(m, 0x70070) == Ram(p.timeoutclk)
            else
              CellOf(m, 0x80058 + i) == Ram(p.accesstime + i) &&
              (i < 4 ==> CellOf(m, 0x80065 + i) == Ram(p.accesscrc + i)) &&
              CellOf(m, 0x80069 + i) == Ram(p.timeout + i) && CellOf(m, 0x80076) == Ram(p.timeoutclk)
  {
    hide CellOf, StoreCellOf;
    var b := m.ctl[1].config0;
    forall k | 0 <= k < 0x100 ensures CellOf(m, b + k) == Ram(k) { RamWindow(m, b + k); }
  }
}
