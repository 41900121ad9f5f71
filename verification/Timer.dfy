/**
 The real-time clock under timer 2: the access time that start-up leaves in RAM, and the reading
 that turns it back into ticks, absorbing gaps the calculator cannot have seen.
 */
module Timer {
  import opened Digits
  import opened Fields
  import opened Crc

  const TICKS_PER_SECOND := 0x2000
  const UNIX_0_TIME := 0x1CF2E8F800000
  const TICKS_10_MIN := 0x00b40000
  const HALF_MINUTE := 0x3c000
  const ACCESS_NIBBLES := 13

  const ACCESSTIME_SX := 0x52
  const ACCESSCRC_SX := 0x5f
  const TIMEOUT_SX := 0x63
  const TIMEOUTCLK_SX := 0x70
  const ACCESSTIME_GX := 0x58
  const ACCESSCRC_GX := 0x65
  const TIMEOUT_GX := 0x69
  const TIMEOUTCLK_GX := 0x76

  /** The constants in units of time; the one named for ten minutes is twenty-four, and 1970 began 719528 days on. */
  lemma TicksInTime()
    ensures HALF_MINUTE == 30 * TICKS_PER_SECOND && TICKS_10_MIN == 24 * 60 * TICKS_PER_SECOND
    ensures UNIX_0_TIME == 719528 * 24 * 60 * 60 * TICKS_PER_SECOND
  {
  }

  /** A wall-clock reading in ticks. */
  function WallTicks(sec: int, usec: int): int
  {
    sec * TICKS_PER_SECOND + usec * 128 / 15625
  }

  /** The tick count is the exact time, rounded down. */
  lemma WallTicksIsFloor(sec: int, usec: int)
    requires 0 <= usec < 1000000
    ensures var us := sec * 1000000 + usec;
            WallTicks(sec, usec) * 1000000 <= us * TICKS_PER_SECOND < (WallTicks(sec, usec) + 1) * 1000000
  {
    var q := usec * 128 / 15625;
    assert 15625 * q <= usec * 128 < 15625 * (q + 1);
  }

  /** A 64-bit value read as unsigned. */
  function U64(x: int): int { x % 0x1_0000_0000_0000_0000 }

  /** A 64-bit value passed as a 32-bit int. */
  function Int32(x: int): int { (x + 0x8000_0000) % 0x1_0000_0000 - 0x8000_0000 }

  /** abs() takes an int; the most negative one has no positive counterpart and stays. */
  function Abs32(x: int): int { if -0x8000_0000 < Int32(x) < 0 then -Int32(x) else Int32(x) }

  /** set_0_time, time_offset and t2_tick. */
  datatype Clock = Clock(set0: int, offset: int, t2Tick: int)

  predicate ClockOk(c: Clock) { c.offset == UNIX_0_TIME + c.set0 }

  /** The last step of a reading: never let the timer count up. */
  function CheckedTicks(access: int, timer2: int, c: Clock): (int, Clock)
  {
    if (timer2 >= 0 && access < 0) || U64(timer2) > U64(access) then (access, c)
    else (timer2, c.(t2Tick := c.t2Tick + 1))
  }

  /** Timer 2 as of a moment, from the access time; a gap of over half a minute moves the clock instead. */
  function Reading(accessTime: int, now: int, timer2: int, c: Clock, suspended: bool): (int, Clock)
  {
    var access := accessTime - (now + c.offset);
    var adj := access - timer2;
    if !suspended && Abs32(adj) > HALF_MINUTE
    then CheckedTicks(access - adj, timer2, c.(set0 := c.set0 + adj, offset := c.offset + adj))
    else CheckedTicks(access, timer2, c)
  }

  /** The access time as stored: thirteen nibbles. */
  function AccessTime(now: int, timer2: int, offset: int): seq<int>
  {
    Split(now + offset + timer2, 16, ACCESS_NIBBLES)
  }

  function Bits(nibs: seq<int>): (r: seq<bv16>)
    requires Below(nibs, 16)
    ensures |r| == |nibs|
  {
    seq(|nibs|, i requires 0 <= i < |nibs| => Bv(nibs[i]))
  }

  function Bv(x: int): bv16
    requires 0 <= x < 16
  {
    x as bv16
  }

  /** The CRC register after some nibbles. */
  function RunCrc(crc: bv16, bits: seq<bv16>): bv16
  {
    Fold(Step, crc, bits)
  }

  function CrcOf(nibs: seq<int>): bv16
    requires Below(nibs, 16)
  {
    RunCrc(0, Bits(nibs))
  }

  // ------------------------------------------------------------------ the round trip

  /**
   d ticks after the access time was set, half a minute at most, timer 2 has counted down by
   exactly d; after a longer gap within 31 bits the clock is moved by the gap and timer 2 stands.
   */
  lemma RoundTrip(t0: int, d: int, timer2: int, c: Clock)
    requires ClockOk(c) && -0x8000_0000 <= timer2 < 0x8000_0000 && 0 <= d < 0x8000_0000
    requires 0 <= t0 + c.offset + timer2 < Pow(16, ACCESS_NIBBLES)
    ensures var (t2, c') := Reading(Value(AccessTime(t0, timer2, c.offset), 16), t0 + d, timer2, c, false);
            ClockOk(c') &&
            (if d <= HALF_MINUTE then t2 == timer2 - d && c'.offset == c.offset
             else t2 == timer2 && c'.offset == c.offset - d)
  {
    hide Split, Value, Pow, Reading;
    SplitExact(t0 + c.offset + timer2, 16, ACCESS_NIBBLES);
    ReadingAfter(t0 + c.offset + timer2, t0 + d, d, timer2, c);
  }

  lemma ReadingAfter(accessTime: int, now: int, d: int, timer2: int, c: Clock)
    requires ClockOk(c) && -0x8000_0000 <= timer2 < 0x8000_0000 && 0 <= d < 0x8000_0000
    requires accessTime == now - d + c.offset + timer2
    ensures var (t2, c') := Reading(accessTime, now, timer2, c, false);
            ClockOk(c') &&
            (if d <= HALF_MINUTE then t2 == timer2 - d && c'.offset == c.offset
             else t2 == timer2 && c'.offset == c.offset - d)
  {
  }

  lemma SuspendedAfter(accessTime: int, now: int, d: int, timer2: int, c: Clock)
    requires -0x8000_0000 <= timer2 < 0x8000_0000 && 0 <= d < 0x1000_0000_0000_0000
    requires accessTime == now - d + c.offset + timer2
    ensures Reading(accessTime, now, timer2, c, true).0 == timer2 - d
  {
  }

  /** While adjustment is suspended every gap counts, however long. */
  lemma SuspendedCounts(t0: int, d: int, timer2: int, c: Clock)
    requires -0x8000_0000 <= timer2 < 0x8000_0000 && 0 <= d < 0x1000_0000_0000_0000
    requires 0 <= t0 + c.offset + timer2 < Pow(16, ACCESS_NIBBLES)
    ensures Reading(Value(AccessTime(t0, timer2, c.offset), 16), t0 + d, timer2, c, true).0 == timer2 - d
  {
    hide Split, Value, Pow, Reading;
    SplitExact(t0 + c.offset + timer2, 16, ACCESS_NIBBLES);
    SuspendedAfter(t0 + c.offset + timer2, t0 + d, d, timer2, c);
  }

  /** A gap is absorbed when its low 32 bits, as a signed number, exceed half a minute. */
  lemma AbsorbedExactly(accessTime: int, now: int, timer2: int, c: Clock)
    ensures var adj := accessTime - (now + c.offset) - timer2;
            Reading(accessTime, now, timer2, c, false).1.offset == c.offset + adj <==>
            (adj == 0 || HALF_MINUTE < Abs32(adj))
  {
  }

  /** A gap of 2^32 ticks, about six days, is not absorbed. */
  lemma SixDaysAreNotAbsorbed(accessTime: int, now: int, timer2: int, c: Clock)
    requires accessTime - (now + c.offset) - timer2 == -0x1_0000_0000 && 0 <= timer2 < 0x8000_0000
    ensures Reading(accessTime, now, timer2, c, false) == (timer2 - 0x1_0000_0000, c)
  {
  }

  /** When the clock has run back a little, timer 2 stands unless that takes it from below zero to zero or above. */
  lemma BackwardsExactly(accessTime: int, now: int, timer2: int, c: Clock, e: int)
    requires accessTime - (now + c.offset) - timer2 == e && 0 < e <= HALF_MINUTE
    requires -0x8000_0000 <= timer2 < 0x8000_0000
    ensures Reading(accessTime, now, timer2, c, false).0 ==
            if timer2 < 0 && timer2 + e >= 0 then timer2 + e else timer2
  {
  }

  // ------------------------------------------------------------------ the memory form

  datatype Places = Places(accesstime: nat, accesscrc: nat, timeout: nat, timeoutclk: nat)

  function PlacesOf(gx: bool): Places
  {
    if gx then Places(ACCESSTIME_GX, ACCESSCRC_GX, TIMEOUT_GX, TIMEOUTCLK_GX)
    else Places(ACCESSTIME_SX, ACCESSCRC_SX, TIMEOUT_SX, TIMEOUTCLK_SX)
  }

  predicate Consecutive(p: Places)
  {
    p.accesstime + 13 == p.accesscrc && p.accesscrc + 4 == p.timeout && p.timeout + 13 == p.timeoutclk
  }

  /** The start-up record: an access time with its own CRC, and a time-out twenty-four minutes on. */
  ghost predicate Recorded(r: seq<int>, p: Places, ticks: int)
    requires Consecutive(p) && |r| > p.timeoutclk
  {
    var nibs := Split(ticks, 16, ACCESS_NIBBLES);
    Below(nibs, 16) && r[p.accesstime..p.accesstime + ACCESS_NIBBLES] == nibs &&
    r[p.accesscrc..p.accesscrc + 4] == Split(CrcOf(nibs) as int, 16, 4) &&
    r[p.timeout..p.timeout + ACCESS_NIBBLES] == Split(ticks + TICKS_10_MIN, 16, ACCESS_NIBBLES) &&
    r[p.timeoutclk] == 0xf
  }

  ghost predicate Outside(r: seq<int>, old_: seq<int>, p: Places)
    requires |r| == |old_|
  {
    forall k :: 0 <= k < |r| && !(p.accesstime <= k <= p.timeoutclk) ==> r[k] == old_[k]
  }

  class RealTime {
    const opt_gx: bool
    const ram: array<int>
    var set_0_time: int
    var time_offset: int
    var timer2: int
    var t2_tick: int
    var suspended: bool  // an adjustment is pending or the debugger is in control

    ghost predicate Valid()
      reads this, ram
    {
      0x10000 <= ram.Length && time_offset == UNIX_0_TIME + set_0_time
    }

    function ClockView(): Clock
      reads this
    {
      Clock(set_0_time, time_offset, t2_tick)
    }

    constructor (gx: bool, memory: array<int>, set0: int)
      requires 0x10000 <= memory.Length
      ensures Valid() && ram == memory && opt_gx == gx && set_0_time == set0
    {
      opt_gx, ram, set_0_time, time_offset := gx, memory, set0, UNIX_0_TIME + set0;
      timer2, t2_tick, suspended := 0, 0, false;
    }

    /** n nibbles of v, low nibble first, with the CRC running over them. */
    method StoreTime(at: nat, v: int, crc0: bv16) returns (crc: bv16)
      requires at + ACCESS_NIBBLES <= ram.Length
      modifies ram
      ensures ram[at..at + ACCESS_NIBBLES] == Split(v, 16, ACCESS_NIBBLES)
      ensures forall k :: 0 <= k < ram.Length && !(at <= k < at + ACCESS_NIBBLES) ==> ram[k] == old(ram[k])
      ensures Below(Split(v, 16, ACCESS_NIBBLES), 16)
      ensures crc == RunCrc(crc0, Bits(Split(v, 16, ACCESS_NIBBLES)))
    {
      RunNone(crc0);
      WroteNothing(at);
      hide *;
      ghost var full, old_, done := Split(v, 16, ACCESS_NIBBLES), ram[..], [];
      assert [] + full == full;
      crc := crc0;
      var ticks := v;
      for i := 0 to ACCESS_NIBBLES
        invariant Wrote(ram, old_, at, at + i, done) && |done| == i
        invariant done + Split(ticks, 16, ACCESS_NIBBLES - i) == full
        invariant Below(done, 16) && crc == RunCrc(crc0, Bits(done))
      {
        var val := ticks % 16;
        SplitNext(done, ticks, 16, ACCESS_NIBBLES - i);
        CrcNext(crc0, done, val);
        crc := Step(crc, Bv(val));
        PutOne(at, i, val, old_, done);
        ticks := ticks / 16;
        done := done + [val];
      }
      SplitNone(ticks, 16);
      assert done + [] == done;
      WroteSlice(old_, at, at + ACCESS_NIBBLES, done);
    }

    lemma WroteNothing(at: nat)
      requires at <= ram.Length
      ensures Wrote(ram, ram[..], at, at, [])
    {
    }

    /** One nibble more of a run that is being written. */
    method PutOne(at: nat, i: nat, val: int, ghost old_: seq<int>, ghost done: seq<int>)
      requires at + i < ram.Length && Wrote(ram, old_, at, at + i, done)
      modifies ram
      ensures Wrote(ram, old_, at, at + i + 1, done + [val])
    {
      ram[at + i] := val;
    }

    lemma WroteSlice(old_: seq<int>, s: nat, e: nat, mid: seq<int>)
      requires Wrote(ram, old_, s, e, mid)
      ensures ram[s..e] == mid
      ensures forall k :: 0 <= k < ram.Length && !(s <= k < e) ==> ram[k] == old_[k]
    {
    }

    static lemma RunNone(crc: bv16)
      ensures Below([], 16) && RunCrc(crc, Bits([])) == crc
    {
    }

    static lemma CrcNext(crc: bv16, done: seq<int>, val: int)
      requires Below(done, 16) && 0 <= val < 16
      ensures Below(done + [val], 16)
      ensures RunCrc(crc, Bits(done + [val])) == Step(RunCrc(crc, Bits(done)), Bv(val))
    {
      hide Step, Bv;
      BelowSnoc(done, val, 16);
      var b := Bits(done + [val]);
      assert b[..|done|] == Bits(done) && b[|done|] == Bv(val);
    }

    /** Each part of the start-up record survives the writing of the later ones. */
    static lemma StartKept(p: Places, ticks: int, r0: seq<int>, r1: seq<int>, r2: seq<int>, r3: seq<int>, r4: seq<int>)
      requires Consecutive(p) && |r0| == |r1| == |r2| == |r3| == |r4| > p.timeoutclk
      requires forall k :: 0 <= k < |r1| && !(p.accesstime <= k < p.accesstime + 13) ==> r1[k] == r0[k]
      requires forall k :: 0 <= k < |r1| && !(p.accesscrc <= k < p.accesscrc + 4) ==> r2[k] == r1[k]
      requires forall k :: 0 <= k < |r1| && !(p.timeout <= k < p.timeout + 13) ==> r3[k] == r2[k]
      requires r4 == r3[p.timeoutclk := 0xf]
      requires r1[p.accesstime..p.accesstime + 13] == Split(ticks, 16, 13) && Below(Split(ticks, 16, 13), 16)
      requires r2[p.accesscrc..p.accesscrc + 4] == Split(CrcOf(Split(ticks, 16, 13)) as int, 16, 4)
      requires r3[p.timeout..p.timeout + 13] == Split(ticks + TICKS_10_MIN, 16, 13)
      ensures Recorded(r4, p, ticks)
      ensures Outside(r4, r0, p)
    {
      hide Split, CrcOf, Below;
    }

    /** Start-up: the access time, its CRC and the time-out, twenty-four minutes later. */
    method SetAccesstime(sec: int, usec: int)
      requires Valid()
      modifies this`time_offset, ram
      ensures Valid() && time_offset == old(time_offset)
      ensures Recorded(ram[..], PlacesOf(opt_gx), WallTicks(sec, usec) + time_offset + timer2)
      ensures Outside(ram[..], old(ram[..]), PlacesOf(opt_gx))
    {
      hide WallTicks, Split, CrcOf, Bits, Below, RunCrc, Recorded, Outside;
      var p := PlacesOf(opt_gx);
      var ticks := WallTicks(sec, usec);
      time_offset := UNIX_0_TIME + set_0_time;
      ticks := ticks + time_offset + timer2;
      ghost var r0 := ram[..];
      var crc := StoreTime(p.accesstime, ticks, 0);
      ghost var r1 := ram[..];
      CrcOfIs(ticks, crc);
      StoreCrc(p.accesscrc, crc);
      ghost var r2 := ram[..];
      var unused := StoreTime(p.timeout, ticks + TICKS_10_MIN, crc);
      ghost var r3 := ram[..];
      ram[p.timeoutclk] := 0xf;
      StartKept(p, ticks, r0, r1, r2, r3, ram[..]);
    }

    static lemma CrcOfIs(ticks: int, crc: bv16)
      requires Below(Split(ticks, 16, ACCESS_NIBBLES), 16)
      requires crc == RunCrc(0, Bits(Split(ticks, 16, ACCESS_NIBBLES)))
      ensures crc == CrcOf(Split(ticks, 16, ACCESS_NIBBLES))
    {
    }

    /** The four nibbles of the CRC, low nibble first. */
    method StoreCrc(at: nat, crc0: bv16)
      requires at + 4 <= ram.Length
      modifies ram
      ensures ram[at..at + 4] == Split(crc0 as int, 16, 4)
      ensures forall k :: 0 <= k < ram.Length && !(at <= k < at + 4) ==> ram[k] == old(ram[k])
    {
      ghost var full, old_, done := Split(crc0 as int, 16, 4), ram[..], [];
      var crc := crc0 as int;
      WroteNothing(at);
      assert [] + full == full;
      hide *;
      for i := 0 to 4
        invariant Wrote(ram, old_, at, at + i, done) && |done| == i && done + Split(crc, 16, 4 - i) == full
      {
        SplitNext(done, crc, 16, 4 - i);
        PutOne(at, i, crc % 16, old_, done);
        done := done + [crc % 16];
        crc := crc / 16;
      }
      SplitNone(crc, 16);
      assert done + [] == done;
      WroteSlice(old_, at, at + 4, done);
    }

    /** A reading of timer 2 against the stored access time. */
    method GetT2(sec: int, usec: int) returns (t2: int)
      requires Valid()
      modifies this`set_0_time, this`time_offset, this`t2_tick
      ensures Valid()
      ensures var p := PlacesOf(opt_gx);
              (t2, ClockView()) == Reading(Value(ram[p.accesstime..p.accesstime + ACCESS_NIBBLES], 16),
                                           WallTicks(sec, usec), timer2, old(ClockView()), suspended)
    {
      var p := PlacesOf(opt_gx);
      var stop := WallTicks(sec, usec) + time_offset;
      var access_time := 0;
      var i := ACCESS_NIBBLES;
      hide Value, WallTicks;
      ValueNone(16);
      assert ram[p.accesstime + 13..p.accesstime + 13] == [];
      while i > 0
        invariant 0 <= i <= ACCESS_NIBBLES && Valid() && ClockView() == old(ClockView())
        invariant access_time == Value(ram[p.accesstime + i..p.accesstime + ACCESS_NIBBLES], 16)
      {
        i := i - 1;
        ValueCons(ram[p.accesstime + i], ram[p.accesstime + i + 1..p.accesstime + ACCESS_NIBBLES], 16);
        assert [ram[p.accesstime + i]] + ram[p.accesstime + i + 1..p.accesstime + ACCESS_NIBBLES] ==
               ram[p.accesstime + i..p.accesstime + ACCESS_NIBBLES];
        access_time := access_time * 16 + ram[p.accesstime + i];
      }
      access_time := access_time - stop;
      if suspended {
        t2 := Check(access_time);
        return;
      }
      var adj_time := access_time - timer2;
      if Abs32(adj_time) > HALF_MINUTE {
        set_0_time := set_0_time + adj_time;
        time_offset := time_offset + adj_time;
        access_time := access_time - adj_time;
      }
      t2 := Check(access_time);
    }

    method Check(access_time: int) returns (t2: int)
      modifies this`t2_tick
      ensures (t2, ClockView()) == CheckedTicks(access_time, timer2, old(ClockView()))
    {
      if (timer2 >= 0 && access_time < 0) || U64(timer2) > U64(access_time) { return access_time; }
      t2_tick := t2_tick + 1;
      return timer2;
    }
  }
}
