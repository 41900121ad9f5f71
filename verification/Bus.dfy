/**
 The six hand-written address decoders of the memory system (plain load, checking load and
 store, for either model), each proved to be the one decode of module Memory.
 */
module Bus {
  import opened Digits
  import opened Fields
  import opened DaisyChain
  import opened Memory

  class Bus {
    const model: Model
    const rom: array<int>
    const ram: array<int>
    const port1: array<int>
    const port2: array<int>
    const port1_is_ram: bool
    const port2_is_ram: bool
    const port1_mask: int
    const port2_mask: int
    const mem_cntl: array<Ctl>
    var bank_switch: int
    var dev: Dev

    ghost predicate Valid()
      reads this, rom, ram, port1, port2, mem_cntl
    {
      rom != ram && rom != port1 && rom != port2 && ram != port1 && ram != port2 && port1 != port2 &&
      port1_mask + 1 == port1.Length && port2_mask + 1 == port2.Length && MemOk(View())
    }

    ghost function View(): Mem
      reads this, rom, ram, port1, port2, mem_cntl
    {
      Mem(model, rom[..], ram[..], Card(port1[..], port1_is_ram), Card(port2[..], port2_is_ram),
          mem_cntl[..], bank_switch, dev)
    }

    /** `x & mask` for a mask of the form 2^k - 1. */
    static function And(x: int, mask: int): int
      requires mask >= 0
    {
      x % (mask + 1)
    }

    method ReadDevMem(addr: nat) returns (r: int)
      requires Valid() && 0x100 <= addr < 0x140
      modifies this`dev
      ensures View() == LoadCell(old(View()), Device(addr)).0 && r == LoadCell(old(View()), Device(addr)).1
    {
      var (d, v) := ReadDev(dev, addr);
      dev, r := d, v;
    }

    method CalcCrc(nib: int) returns (r: int)
      modifies this`dev
      ensures View() == old(View()).(dev := old(dev).(crc := Memory.CalcCrc(old(dev).crc, nib))) && r == nib
    {
      dev := dev.(crc := Memory.CalcCrc(dev.crc, nib));
      r := nib;
    }

    method ReadNibbleSx(address: int) returns (r: int)
      requires Valid() && model.SX?
      modifies this
      ensures View() == Load(old(View()), address).0 && r == Load(old(View()), address).1
    {
      var addr := address % 0x100000;
      var page := addr / 0x10000;
      if page == 0 {
        if addr < 0x140 && addr >= 0x100 {
          if mem_cntl[MCTL_MMIO].config0 == 0x100 { r := ReadDevMem(addr); return; }
          return 0x00;
        }
        return rom[addr];
      } else if page <= 6 {
        return rom[addr];
      } else if page == 7 {
        if mem_cntl[MCTL_SysRAM].config0 == 0x70000 {
          if mem_cntl[MCTL_SysRAM].config1 == 0xfc000 && addr < 0x74000 { return ram[addr - 0x70000]; }
          if mem_cntl[MCTL_SysRAM].config1 == 0xfe000 && addr < 0x72000 { return ram[addr - 0x70000]; }
          if mem_cntl[MCTL_SysRAM].config1 == 0xf0000 { return ram[addr - 0x70000]; }
        }
        return rom[addr];
      } else if page <= 0xb {
        if mem_cntl[MCTL_PORT1_SX].config0 == 0x80000 { return port1[And(addr - 0x80000, port1_mask)]; }
        if mem_cntl[MCTL_PORT2_SX].config0 == 0x80000 { return port2[And(addr - 0x80000, port2_mask)]; }
        return 0x00;
      } else if page <= 0xe {
        if mem_cntl[MCTL_PORT1_SX].config0 == 0xc0000 { return port1[And(addr - 0xc0000, port1_mask)]; }
        if mem_cntl[MCTL_PORT2_SX].config0 == 0xc0000 { return port2[And(addr - 0xc0000, port2_mask)]; }
        return 0x00;
      } else {
        if mem_cntl[MCTL_SysRAM].config0 == 0xf0000 { return ram[addr - 0xf0000]; }
        if mem_cntl[MCTL_PORT1_SX].config0 == 0xc0000 { return port1[And(addr - 0xc0000, port1_mask)]; }
        if mem_cntl[MCTL_PORT2_SX].config0 == 0xc0000 { return port2[And(addr - 0xc0000, port2_mask)]; }
        return 0x00;
      }
    }

    method ReadNibbleCrcSx(address: int) returns (r: int)
      requires Valid() && model.SX?
      modifies this
      ensures View() == LoadCrc(old(View()), address).0 && r == LoadCrc(old(View()), address).1
    {
      hide Memory.CalcCrc, Below, ReadDev, GxCell;
      var addr := address % 0x100000;
      var page := addr / 0x10000;
      if page == 0 {
        if addr < 0x140 && addr >= 0x100 {
          if mem_cntl[MCTL_MMIO].config0 == 0x100 { r := ReadDevMem(addr); return; }
          r := CalcCrc(0x00);
          return;
        }
        r := CalcCrc(rom[addr]); return;
      } else if page <= 6 {
        r := CalcCrc(rom[addr]); return;
      } else if page == 7 {
        if mem_cntl[MCTL_SysRAM].config0 == 0x70000 {
          if mem_cntl[MCTL_SysRAM].config1 == 0xfc000 && addr < 0x74000 { r := CalcCrc(ram[addr - 0x70000]); return; }
          if mem_cntl[MCTL_SysRAM].config1 == 0xfe000 && addr < 0x72000 { r := CalcCrc(ram[addr - 0x70000]); return; }
          if mem_cntl[MCTL_SysRAM].config1 == 0xf0000 { r := CalcCrc(ram[addr - 0x70000]); return; }
        }
        r := CalcCrc(rom[addr]); return;
      } else if page <= 0xb {
        if mem_cntl[MCTL_PORT1_SX].config0 == 0x80000 { r := CalcCrc(port1[And(addr - 0x80000, port1_mask)]); return; }
        if mem_cntl[MCTL_PORT2_SX].config0 == 0x80000 { r := CalcCrc(port2[And(addr - 0x80000, port2_mask)]); return; }
        return 0x00;
      } else if page <= 0xe {
        if mem_cntl[MCTL_PORT1_SX].config0 == 0xc0000 { r := CalcCrc(port1[And(addr - 0xc0000, port1_mask)]); return; }
        if mem_cntl[MCTL_PORT2_SX].config0 == 0xc0000 { r := CalcCrc(port2[And(addr - 0xc0000, port2_mask)]); return; }
        return 0x00;
      } else {
        if mem_cntl[MCTL_SysRAM].config0 == 0xf0000 { r := CalcCrc(ram[addr - 0xf0000]); return; }
        if mem_cntl[MCTL_PORT1_SX].config0 == 0xc0000 { r := CalcCrc(port1[And(addr - 0xc0000, port1_mask)]); return; }
        if mem_cntl[MCTL_PORT2_SX].config0 == 0xc0000 { r := CalcCrc(port2[And(addr - 0xc0000, port2_mask)]); return; }
        return 0x00;
      }
    }

    /** A load from the bank-switch window at `base`. */
    method SwitchBank(addr: nat, base: nat) returns (r: int)
      requires base <= addr
      modifies this`bank_switch
      ensures r == 7
      ensures bank_switch == if addr == base then 0
                             else if base + 0x40 <= addr < base + 0x80 then (addr - base - 0x40) / 2
                             else old(bank_switch)
    {
      if addr == base { bank_switch := 0; }
      if addr >= base + 0x40 && addr < base + 0x80 { bank_switch := (addr - (base + 0x40)) / 2; }
      return 0x7;
    }

    method ReadNibbleGx(address: int) returns (r: int)
      requires Valid() && model.GX?
      modifies this
      ensures View() == Load(old(View()), address).0 && r == Load(old(View()), address).1
    {
      var addr := address % 0x100000;
      var page := addr / 0x10000;
      if page == 0 {
        if addr < 0x140 && addr >= 0x100 {
          if mem_cntl[MCTL_MMIO].config0 == 0x100 { r := ReadDevMem(addr); return; }
          return 0x00;
        }
        return rom[addr];
      } else if page <= 3 || page == 5 || page == 6 {
        return rom[addr];
      } else if page == 4 {
        if mem_cntl[MCTL_SysRAM].config0 == 0x40000 { return ram[addr - 0x40000]; }
        return rom[addr];
      } else if page == 7 {
        if addr >= 0x7f000 && mem_cntl[MCTL_BANK_GX].config0 == 0x7f000 {
          r := SwitchBank(addr, 0x7f000);
          return;
        }
        if addr >= 0x7e000 && addr < 0x7f000 && mem_cntl[MCTL_PORT1_GX].config0 == 0x7e000 { return 0x7; }
        if addr >= 0x7e000 && addr < 0x7f000 && mem_cntl[MCTL_PORT2_GX].config0 == 0x7e000 { return 0x7; }
        return rom[addr];
      } else if page == 8 {
        if mem_cntl[MCTL_SysRAM].config0 == 0x80000 {
          if mem_cntl[MCTL_SysRAM].config1 == 0xfc000 && addr < 0x84000 { return ram[addr - 0x80000]; }
          if mem_cntl[MCTL_SysRAM].config1 == 0xfe000 && addr < 0x82000 { return ram[addr - 0x80000]; }
          if mem_cntl[MCTL_SysRAM].config1 == 0xf0000 { return ram[addr - 0x80000]; }
          if mem_cntl[MCTL_SysRAM].config1 == 0xc0000 { return ram[addr - 0x80000]; }
        }
        return rom[addr];
      } else if page == 9 {
        if mem_cntl[0].config0 == 0x90000 {
          if addr < 0x91000 {
            r := SwitchBank(addr, 0x90000);
            return;
          }
        }
        if mem_cntl[MCTL_SysRAM].config0 == 0x80000 {
          if mem_cntl[MCTL_SysRAM].config1 == 0xc0000 { return ram[addr - 0x80000]; }
        }
        return rom[addr];
      } else if page == 0xa {
        if mem_cntl[MCTL_SysRAM].config0 == 0x80000 {
          if mem_cntl[MCTL_SysRAM].config1 == 0xc0000 { return ram[addr - 0x80000]; }
        }
        if mem_cntl[MCTL_PORT1_GX].config0 == 0xa0000 { return port1[And(addr - 0xa0000, port1_mask)]; }
        return rom[addr];
      } else if page == 0xb {
        if mem_cntl[MCTL_SysRAM].config0 == 0x80000 {
          if mem_cntl[MCTL_SysRAM].config1 == 0xc0000 { return ram[addr - 0x80000]; }
        }
        if mem_cntl[MCTL_PORT2_GX].config0 == 0xb0000 {
          return port2[And(bank_switch * 0x40000 + (addr - 0xb0000), port2_mask)];
        }
        return rom[addr];
      } else if page == 0xc {
        if mem_cntl[MCTL_SysRAM].config0 == 0xc0000 {
          if mem_cntl[MCTL_SysRAM].config1 == 0xfc000 && addr < 0xc4000 { return ram[addr - 0xc0000]; }
          if mem_cntl[MCTL_SysRAM].config1 == 0xfe000 && addr < 0xc2000 { return ram[addr - 0xc0000]; }
          return ram[addr - 0xc0000];
        }
        if mem_cntl[MCTL_PORT1_GX].config0 == 0xc0000 { return port1[And(addr - 0xc0000, port1_mask)]; }
        if mem_cntl[MCTL_PORT2_GX].config0 == 0xc0000 {
          return port2[And(bank_switch * 0x40000 + (addr - 0xc0000), port2_mask)];
        }
        return rom[addr];
      } else {
        if mem_cntl[MCTL_SysRAM].config0 == 0xc0000 {
          if mem_cntl[MCTL_SysRAM].config1 == 0xc0000 { return ram[addr - 0xc0000]; }
        }
        if mem_cntl[MCTL_PORT1_GX].config0 == 0xc0000 {
          if mem_cntl[MCTL_PORT1_GX].config1 == 0xc0000 { return port1[And(addr - 0xc0000, port1_mask)]; }
        }
        if mem_cntl[MCTL_PORT2_GX].config0 == 0xc0000 {
          if mem_cntl[MCTL_PORT2_GX].config1 == 0xc0000 {
            return port2[And(bank_switch * 0x40000 + (addr - 0xc0000), port2_mask)];
          }
        }
        return rom[addr];
      }
    }

    /** The last four pages of the GX checking load decoder. */
    method ReadTopCrcGx(addr: nat) returns (r: int)
      requires Valid() && model.GX? && 0xc0000 <= addr < 0x100000
      modifies this
      ensures View() == LoadCrc(old(View()), addr).0 && r == LoadCrc(old(View()), addr).1
    {
      hide Memory.CalcCrc, Below, ReadDev, SxCell, LowPage;
      var page := addr / 0x10000;
      if page == 0xc {
        if mem_cntl[MCTL_SysRAM].config0 == 0xc0000 {
          if mem_cntl[MCTL_SysRAM].config1 == 0xfc000 && addr < 0xc4000 { r := CalcCrc(ram[addr - 0xc0000]); return; }
          if mem_cntl[MCTL_SysRAM].config1 == 0xfe000 && addr < 0xc2000 { r := CalcCrc(ram[addr - 0xc0000]); return; }
          r := CalcCrc(ram[addr - 0xc0000]); return;
        }
        if mem_cntl[MCTL_PORT1_GX].config0 == 0xc0000 { r := CalcCrc(port1[And(addr - 0xc0000, port1_mask)]); return; }
        if mem_cntl[MCTL_PORT2_GX].config0 == 0xc0000 {
          r := CalcCrc(port2[And(bank_switch * 0x40000 + (addr - 0xc0000), port2_mask)]); return;
        }
        r := CalcCrc(rom[addr]); return;
      } else {
        if mem_cntl[MCTL_SysRAM].config0 == 0xc0000 {
          if mem_cntl[MCTL_SysRAM].config1 == 0xc0000 { r := CalcCrc(ram[addr - 0xc0000]); return; }
        }
        if mem_cntl[MCTL_PORT1_GX].config0 == 0xc0000 {
          if mem_cntl[MCTL_PORT1_GX].config1 == 0xc0000 {
            r := CalcCrc(port1[And(addr - 0xc0000, port1_mask)]);
            return;
          }
        }
        if mem_cntl[MCTL_PORT2_GX].config0 == 0xc0000 {
          if mem_cntl[MCTL_PORT2_GX].config1 == 0xc0000 {
            r := CalcCrc(port2[And(bank_switch * 0x40000 + (addr - 0xc0000), port2_mask)]); return;
          }
        }
        r := CalcCrc(rom[addr]); return;
      }
    }

    /** The upper pages of the GX checking load decoder. */
    method ReadHighCrcGx(addr: nat) returns (r: int)
      requires Valid() && model.GX? && 0x90000 <= addr < 0x100000
      modifies this
      ensures View() == LoadCrc(old(View()), addr).0 && r == LoadCrc(old(View()), addr).1
    {
      hide Memory.CalcCrc, Below, ReadDev, SxCell, LowPage;
      var page := addr / 0x10000;
      if page == 9 {
        if mem_cntl[0].config0 == 0x90000 {
          if addr < 0x91000 {
            r := SwitchBank(addr, 0x90000);
            return;
          }
        }
        if mem_cntl[MCTL_SysRAM].config0 == 0x80000 {
          if mem_cntl[MCTL_SysRAM].config1 == 0xc0000 { r := CalcCrc(ram[addr - 0x80000]); return; }
        }
        r := CalcCrc(rom[addr]); return;
      } else if page == 0xa {
        if mem_cntl[MCTL_SysRAM].config0 == 0x80000 {
          if mem_cntl[MCTL_SysRAM].config1 == 0xc0000 { r := CalcCrc(ram[addr - 0x80000]); return; }
        }
        if mem_cntl[MCTL_PORT1_GX].config0 == 0xa0000 { r := CalcCrc(port1[And(addr - 0xa0000, port1_mask)]); return; }
        r := CalcCrc(rom[addr]); return;
      } else if page == 0xb {
        if mem_cntl[MCTL_SysRAM].config0 == 0x80000 {
          if mem_cntl[MCTL_SysRAM].config1 == 0xc0000 { r := CalcCrc(ram[addr - 0x80000]); return; }
        }
        if mem_cntl[MCTL_PORT2_GX].config0 == 0xb0000 {
          r := CalcCrc(port2[And(bank_switch * 0x40000 + (addr - 0xb0000), port2_mask)]); return;
        }
        r := CalcCrc(rom[addr]); return;
      } else {
        r := ReadTopCrcGx(addr);
      }
    }

    method ReadNibbleCrcGx(address: int) returns (r: int)
      requires Valid() && model.GX?
      modifies this
      ensures View() == LoadCrc(old(View()), address).0 && r == LoadCrc(old(View()), address).1
    {
      hide Memory.CalcCrc, Below, ReadDev, SxCell;
      var addr := address % 0x100000;
      var page := addr / 0x10000;
      if page == 0 {
        if addr < 0x140 && addr >= 0x100 {
          if mem_cntl[MCTL_MMIO].config0 == 0x100 { r := ReadDevMem(addr); return; }
          r := CalcCrc(0x00);
          return;
        }
        r := CalcCrc(rom[addr]); return;
      } else if page <= 3 || page == 5 || page == 6 {
        r := CalcCrc(rom[addr]); return;
      } else if page == 4 {
        if mem_cntl[MCTL_SysRAM].config0 == 0x40000 { r := CalcCrc(ram[addr - 0x40000]); return; }
        r := CalcCrc(rom[addr]); return;
      } else if page == 7 {
        if addr >= 0x7f000 && mem_cntl[MCTL_BANK_GX].config0 == 0x7f000 {
          r := SwitchBank(addr, 0x7f000);
          return;
        }
        if addr >= 0x7e000 && addr < 0x7f000 && mem_cntl[MCTL_PORT1_GX].config0 == 0x7e000 { return 0x7; }
        if addr >= 0x7e000 && addr < 0x7f000 && mem_cntl[MCTL_PORT2_GX].config0 == 0x7e000 { return 0x7; }
        r := CalcCrc(rom[addr]); return;
      } else if page == 8 {
        if mem_cntl[MCTL_SysRAM].config0 == 0x80000 {
          if mem_cntl[MCTL_SysRAM].config1 == 0xfc000 && addr < 0x84000 { r := CalcCrc(ram[addr - 0x80000]); return; }
          if mem_cntl[MCTL_SysRAM].config1 == 0xfe000 && addr < 0x82000 { r := CalcCrc(ram[addr - 0x80000]); return; }
          if mem_cntl[MCTL_SysRAM].config1 == 0xf0000 { r := CalcCrc(ram[addr - 0x80000]); return; }
          if mem_cntl[MCTL_SysRAM].config1 == 0xc0000 { r := CalcCrc(ram[addr - 0x80000]); return; }
        }
        r := CalcCrc(rom[addr]); return;
      } else {
        r := ReadHighCrcGx(addr);
      }
    }

    method WriteDevMem(addr: nat, val: int)
      requires Valid() && 0x100 <= addr < 0x140 && 0 <= val < 16
      modifies this`dev
      ensures View() == StoreCell(old(View()), Device(addr), val)
    {
      dev := WriteDev(dev, addr, val);
    }

    method WriteNibbleSx(address: int, value: int) returns (inRam: bool)
      requires Valid() && model.SX?
      modifies this, ram, port1, port2
      ensures View() == Store(old(View()), address, value)
      ensures inRam <==> StoreCellOf(old(View()), address).Ram?
    {
      var addr, val := address % 0x100000, value % 0x10;
      var page := addr / 0x10000;
      if page == 0 {
        if addr < 0x140 && addr >= 0x100 && mem_cntl[MCTL_MMIO].config0 == 0x100 {
          WriteDevMem(addr, val);
          return false;
        }
        return false;
      } else if page <= 6 {
        return false;
      } else if page == 7 {
        if mem_cntl[MCTL_SysRAM].config0 == 0x70000 {
          if mem_cntl[MCTL_SysRAM].config1 == 0xfc000 && addr < 0x74000 { ram[addr - 0x70000] := val; return true; }
          if mem_cntl[MCTL_SysRAM].config1 == 0xfe000 && addr < 0x72000 { ram[addr - 0x70000] := val; return true; }
          if mem_cntl[MCTL_SysRAM].config1 == 0xf0000 { ram[addr - 0x70000] := val; return true; }
        }
        return false;
      } else if page <= 0xb {
        if mem_cntl[MCTL_PORT1_SX].config0 == 0x80000 {
          if port1_is_ram { port1[And(addr - 0x80000, port1_mask)] := val; }
          return false;
        }
        if mem_cntl[MCTL_PORT2_SX].config0 == 0x80000 {
          if port2_is_ram { port2[And(addr - 0x80000, port2_mask)] := val; }
          return false;
        }
        return false;
      } else if page <= 0xe {
        if mem_cntl[MCTL_PORT1_SX].config0 == 0xc0000 {
          if port1_is_ram { port1[And(addr - 0xc0000, port1_mask)] := val; }
          return false;
        }
        if mem_cntl[MCTL_PORT2_SX].config0 == 0xc0000 {
          if port2_is_ram { port2[And(addr - 0xc0000, port2_mask)] := val; }
          return false;
        }
        return false;
      } else {
        if mem_cntl[MCTL_SysRAM].config0 == 0xf0000 { ram[addr - 0xf0000] := val; return true; }
        if mem_cntl[MCTL_PORT1_SX].config0 == 0xc0000 {
          if port1_is_ram { port1[And(addr - 0xc0000, port1_mask)] := val; }
          return false;
        }
        if mem_cntl[MCTL_PORT2_SX].config0 == 0xc0000 {
          if port2_is_ram { port2[And(addr - 0xc0000, port2_mask)] := val; }
          return false;
        }
        return false;
      }
    }

    /** The last four pages of the GX store decoder. */
    method WriteTopGx(addr: nat, val: int) returns (inRam: bool)
      requires Valid() && model.GX? && 0xc0000 <= addr < 0x100000 && 0 <= val < 16
      modifies ram, port1, port2
      ensures View() == Store(old(View()), addr, val)
      ensures inRam <==> StoreCellOf(old(View()), addr).Ram?
    {
      hide Below, WriteDev, SxCell, LowPage;
      var page := addr / 0x10000;
      if page == 0xc {
        if mem_cntl[MCTL_SysRAM].config0 == 0xc0000 {
          if mem_cntl[MCTL_SysRAM].config1 == 0xfc000 && addr < 0xc4000 { ram[addr - 0xc0000] := val; return true; }
          if mem_cntl[MCTL_SysRAM].config1 == 0xfe000 && addr < 0xc2000 { ram[addr - 0xc0000] := val; return true; }
          ram[addr - 0xc0000] := val; return true;
        }
        if mem_cntl[MCTL_PORT1_GX].config0 == 0xc0000 {
          if port1_is_ram { port1[And(addr - 0xc0000, port1_mask)] := val; }
          return false;
        }
        if mem_cntl[MCTL_PORT2_GX].config0 == 0xc0000 {
          if port2_is_ram { port2[And(bank_switch * 0x40000 + (addr - 0xc0000), port2_mask)] := val; }
          return false;
        }
        return false;
      } else {
        if mem_cntl[MCTL_SysRAM].config0 == 0xc0000 {
          if mem_cntl[MCTL_SysRAM].config1 == 0xc0000 { ram[addr - 0xc0000] := val; return true; }
        }
        if mem_cntl[MCTL_PORT1_GX].config0 == 0xc0000 {
          if mem_cntl[MCTL_PORT1_GX].config1 == 0xc0000 {
            if port1_is_ram { port1[And(addr - 0xc0000, port1_mask)] := val; }
            return false;
          }
        }
        if mem_cntl[MCTL_PORT2_GX].config0 == 0xc0000 {
          if mem_cntl[MCTL_PORT2_GX].config1 == 0xc0000 {
            if port2_is_ram { port2[And(bank_switch * 0x40000 + (addr - 0xc0000), port2_mask)] := val; }
            return false;
          }
        }
        return false;
      }
    }

    /** The upper pages of the GX store decoder. */
    method WriteHighGx(addr: nat, val: int) returns (inRam: bool)
      requires Valid() && model.GX? && 0x90000 <= addr < 0x100000 && 0 <= val < 16
      modifies ram, port1, port2
      ensures View() == Store(old(View()), addr, val)
      ensures inRam <==> StoreCellOf(old(View()), addr).Ram?
    {
      hide Below, WriteDev, SxCell, LowPage;
      var page := addr / 0x10000;
      if page == 9 {
        if mem_cntl[MCTL_BANK_GX].config0 == 0x90000 {
          if addr < 0x91000 {
            return false;
          }
        }
        if mem_cntl[MCTL_SysRAM].config0 == 0x80000 {
          if mem_cntl[MCTL_SysRAM].config1 == 0xc0000 { ram[addr - 0x80000] := val; return true; }
        }
        return false;
      } else if page == 0xa {
        if mem_cntl[MCTL_SysRAM].config0 == 0x80000 {
          if mem_cntl[MCTL_SysRAM].config1 == 0xc0000 { ram[addr - 0x80000] := val; return true; }
        }
        if mem_cntl[MCTL_PORT1_GX].config0 == 0xa0000 {
          if port1_is_ram { port1[And(addr - 0xa0000, port1_mask)] := val; }
          return false;
        }
        return false;
      } else if page == 0xb {
        if mem_cntl[MCTL_SysRAM].config0 == 0x80000 {
          if mem_cntl[MCTL_SysRAM].config1 == 0xc0000 { ram[addr - 0x80000] := val; return true; }
        }
        if mem_cntl[MCTL_PORT2_GX].config0 == 0xb0000 {
          if port2_is_ram { port2[And(bank_switch * 0x40000 + (addr - 0xb0000), port2_mask)] := val; }
          return false;
        }
        return false;
      } else {
        inRam := WriteTopGx(addr, val);
      }
    }

    method WriteNibbleGx(address: int, value: int) returns (inRam: bool)
      requires Valid() && model.GX?
      modifies this, ram, port1, port2
      ensures View() == Store(old(View()), address, value)
      ensures inRam <==> StoreCellOf(old(View()), address).Ram?
    {
      hide Below, WriteDev, SxCell;
      var addr, val := address % 0x100000, value % 0x10;
      var page := addr / 0x10000;
      if page == 0 {
        if addr < 0x140 && addr >= 0x100 && mem_cntl[MCTL_MMIO].config0 == 0x100 {
          WriteDevMem(addr, val);
          return false;
        }
        return false;
      } else if page <= 3 || page == 5 || page == 6 {
        return false;
      } else if page == 4 {
        if mem_cntl[MCTL_SysRAM].config0 == 0x40000 { ram[addr - 0x40000] := val; return true; }
        return false;
      } else if page == 7 {
        if addr >= 0x7f000 && mem_cntl[MCTL_BANK_GX].config0 == 0x7f000 {
          return false;
        }
        if addr >= 0x7e000 && addr < 0x7f000 && mem_cntl[MCTL_PORT1_GX].config0 == 0x7e000 { return false; }
        if addr >= 0x7e000 && addr < 0x7f000 && mem_cntl[MCTL_PORT2_GX].config0 == 0x7e000 { return false; }
        return false;
      } else if page == 8 {
        if mem_cntl[MCTL_SysRAM].config0 == 0x80000 {
          if mem_cntl[MCTL_SysRAM].config1 == 0xfc000 && addr < 0x84000 { ram[addr - 0x80000] := val; return true; }
          if mem_cntl[MCTL_SysRAM].config1 == 0xfe000 && addr < 0x82000 { ram[addr - 0x80000] := val; return true; }
          if mem_cntl[MCTL_SysRAM].config1 == 0xf0000 { ram[addr - 0x80000] := val; return true; }
          if mem_cntl[MCTL_SysRAM].config1 == 0xc0000 { ram[addr - 0x80000] := val; return true; }
        }
        return false;
      } else {
        inRam := WriteHighGx(addr, val);
      }
    }

    method ReadNibble(addr: int) returns (r: int)
      requires Valid()
      modifies this
      ensures Valid() && View() == Load(old(View()), addr).0 && r == Load(old(View()), addr).1
    {
      LoadKeepsOk(View(), addr);
      if model.GX? { r := ReadNibbleGx(addr); } else { r := ReadNibbleSx(addr); }
    }

    method ReadNibbleCrc(addr: int) returns (r: int)
      requires Valid()
      modifies this
      ensures Valid() && View() == LoadCrc(old(View()), addr).0 && r == Load(old(View()), addr).1
    {
      LoadKeepsOk(View(), addr);
      if model.GX? { r := ReadNibbleCrcGx(addr); } else { r := ReadNibbleCrcSx(addr); }
    }

    method WriteNibble(addr: int, val: int) returns (inRam: bool)
      requires Valid()
      modifies this, ram, port1, port2
      ensures Valid() && View() == Store(old(View()), addr, val)
      ensures inRam <==> StoreCellOf(old(View()), addr).Ram?
    {
      StoreKeepsOk(View(), addr, val);
      if model.GX? { inRam := WriteNibbleGx(addr, val); } else { inRam := WriteNibbleSx(addr, val); }
    }

    method ReadNibbles(address: int, length: nat) returns (val: int)
      requires Valid()
      modifies this
      ensures Valid() && View() == LoadDown(old(View()), address, length).0
      ensures val == Value(LoadDown(old(View()), address, length).1, 16)
    {
      hide Load, LoadDown, MemOk, Value;
      val := 0;
      var addr, len := address + length, length;
      ghost var m, got := View(), [];
      ValueNone(16);
      while len > 0
        invariant Valid() && 0 <= len && addr == address + len && val == Value(got, 16)
        invariant LoadDown(m, address, length).0 == LoadDown(View(), address, len).0
        invariant LoadDown(m, address, length).1 == LoadDown(View(), address, len).1 + got
      {
        LoadDownNext(View(), address, len - 1);
        addr := addr - 1;
        var nib := ReadNibble(addr);
        val := val * 16 + nib;
        ValueCons(nib, got, 16);
        got := [nib] + got;
        len := len - 1;
      }
      LoadDownNext(View(), address, 0);
      assert [] + got == got;
    }

    method WriteNibbles(address: int, value: int, length: nat)
      requires Valid()
      modifies this, ram, port1, port2
      ensures Valid() && View() == StoreAll(old(View()), address, Split(value, 16, length))
    {
      hide Store, StoreAll, MemOk, Split;
      var addr, val, len := address, value, length;
      ghost var m, done := View(), [];
      StoreNone(m, address);
      assert [] + Split(val, 16, len) == Split(val, 16, len);
      while len > 0
        invariant Valid() && 0 <= len && addr == address + |done|
        invariant done + Split(val, 16, len) == Split(value, 16, length)
        invariant View() == StoreAll(m, address, done)
      {
        SplitNext(done, val, 16, len);
        StoreAllNext(m, address, done, val);
        var inRam := WriteNibble(addr, val);
        done := done + [val % 16];
        addr, val, len := addr + 1, val / 16, len - 1;
      }
      SplitNone(val, 16);
      assert done + [] == done;
    }
  }
}