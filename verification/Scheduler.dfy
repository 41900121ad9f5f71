/**
 The scheduler: periodic work is driven by one countdown to the nearest event, and the
 individual counters are settled in a batch when that countdown, or a device access, says so.
 The batched form is compared with counters decremented after every instruction: serial
 polling, time adjustment, statistics and rollover always fall due at the same instructions;
 the two forms are the same machine exactly until a write to a timer register restarts a timer
 in the middle of a batch, or restarts timer 2 with less than the batch to come.
 */
module Scheduler {
  import opened Digits
  import Redraw

  const SCHED_RECEIVE := 0x7ff
  const SCHED_ADJTIME := 0x1ffe
  const SCHED_TIMER1 := 0x1e00
  const SCHED_TIMER2 := 0xf
  const SCHED_STATISTICS := 0x7ffff

  datatype Kind = Timer2 | Receive | Adjtime | Timer1 | Statistics | Rollover

  /** What the scheduler reads of the machine; `rest` is everything else. */
  datatype World<R> = World(intenable: bool, t1_tick: int, t2_tick: int, pc: int, adj_pending: bool, rest: R)

  /**
   The machine around the scheduler.  `exec` is the instruction with number `n`; `accessed`
   says that it touched a device register, `geometry` that this changed the geometry of the
   display, `timer1` and `timer2` that it wrote to a timer, `rti` that it was an RTI that
   returned, `shutdown` that it was SHUTDN; `device` and `fire` are the work done for touched
   devices and for each kind of event.
   */
  datatype Env<!R> = Env(
    exec: (nat, World<R>) -> World<R>,
    accessed: (nat, World<R>) -> bool,
    geometry: (nat, World<R>) -> bool,
    timer1: (nat, World<R>) -> bool,
    timer2: (nat, World<R>) -> bool,
    rti: (nat, World<R>) -> bool,
    shutdown: (nat, World<R>) -> bool,
    device: (nat, World<R>) -> World<R>,
    fire: (Kind, nat, World<R>) -> World<R>)

  /** Which devices ask for work when the scheduler is called. */
  datatype Touched = Touched(device: bool, timer1: bool, timer2: bool)

  function TouchedBy<R>(env: Env<R>, n: nat, w: World<R>): Touched
  {
    var a := env.accessed(n, w);
    Touched(a, a && env.timer1(n, w), a && env.timer2(n, w))
  }

  /** An RTI while a time adjustment is waiting makes the adjustment due. */
  predicate Hurries<R>(env: Env<R>, n: nat, w: World<R>) { env.rti(n, w) && w.adj_pending }

  /** The part of an instruction that the redraw countdown sees. */
  function InstrOf<R>(env: Env<R>, n: nat, w: World<R>, due: bool): Redraw.Instr
  {
    var a := env.accessed(n, w);
    Redraw.Instr(a && env.geometry(n, w), a, env.shutdown(n, w), due)
  }

  datatype Counters = Counters(timer2: int, receive: int, adjtime: int, timer1: int, statistics: int, rollover: int)
  {
    function Minus(k: int): Counters
    {
      Counters(timer2 - k, receive - k, adjtime - k, timer1 - k, statistics - k, rollover - k)
    }

    predicate AtLeast(k: int)
    {
      k <= timer2 && k <= receive && k <= adjtime && k <= timer1 && k <= statistics && k <= rollover
    }

    function Get(k: Kind): int
    {
      match k
      case Timer2 => timer2
      case Receive => receive
      case Adjtime => adjtime
      case Timer1 => timer1
      case Statistics => statistics
      case Rollover => rollover
    }

    function Set(k: Kind, v: int): Counters
    {
      match k
      case Timer2 => this.(timer2 := v)
      case Receive => this.(receive := v)
      case Adjtime => this.(adjtime := v)
      case Timer1 => this.(timer1 := v)
      case Statistics => this.(statistics := v)
      case Rollover => this.(rollover := v)
    }
  }

  datatype State<R> = State(w: World<R>, c: Counters, log: seq<(nat, Kind)>)

  // ----------------------------------------------------- the per-instruction form

  /** What a counter restarts from; the timers tick fast while interrupts are masked. */
  function Reload<R>(k: Kind, w: World<R>): int
  {
    match k
    case Timer2 => if w.intenable then w.t2_tick else SCHED_TIMER2
    case Receive => SCHED_RECEIVE
    case Adjtime => SCHED_ADJTIME
    case Timer1 => if w.intenable then w.t1_tick else SCHED_TIMER1
    case Statistics => SCHED_STATISTICS
    case Rollover => Redraw.SCHED_INSTR_ROLLOVER
  }

  /** The test that the program is not inside the clock service: the counter is not masked. */
  predicate OutsideClockService(pc: int) { pc < 0x3c0 || pc > 0x5ec }

  /** The work of a due counter; a time adjustment waits while the program is inside the clock service. */
  function Work<R>(env: Env<R>, n: nat, w: World<R>, k: Kind): World<R>
  {
    if k != Adjtime then env.fire(k, n, w)
    else if OutsideClockService(w.pc) then env.fire(k, n, w).(adj_pending := false)
    else w.(adj_pending := true)
  }

  /** Whether the adjustment is put off is decided by the low twenty bits except past 2^20 inside the service. */
  lemma HighBitsShow<R>(env: Env<R>, n: nat, w: World<R>)
    requires w.pc >= 0
    ensures var v := w.(pc := w.pc % 0x100000);
            Work(env, n, w, Adjtime).adj_pending == Work(env, n, v, Adjtime).adj_pending <==>
            w.pc < 0x100000 || OutsideClockService(w.pc % 0x100000)
  {
  }

  /** A due adjustment is put off exactly while the counter lies in the clock service, and made otherwise. */
  lemma PutOffExactly<R>(env: Env<R>, n: nat, w: World<R>)
    ensures var v := Work(env, n, w, Adjtime);
            (v.adj_pending <==> 0x3c0 <= w.pc <= 0x5ec) &&
            v == if v.adj_pending then w.(adj_pending := true) else env.fire(Adjtime, n, w).(adj_pending := false)
  {
  }

  /** A counter that has run out is reloaded and its work done. */
  function Settle<R>(env: Env<R>, n: nat, s: State<R>, k: Kind): State<R>
  {
    if s.c.Get(k) > 0 then s
    else State(Work(env, n, s.w, k), s.c.Set(k, Reload(k, s.w)), s.log + [(n, k)])
  }

  function SettleAll<R>(env: Env<R>, n: nat, s: State<R>, ks: seq<Kind>): State<R>
    decreases |ks|
  {
    if ks == [] then s else SettleAll(env, n, Settle(env, n, s, ks[0]), ks[1..])
  }

  // The sections before and after the devices are looked at, in the order the work is done.
  const BEFORE := [Timer2]
  const AFTER := [Receive, Adjtime, Timer1, Statistics, Rollover]

  /**
   Touched devices.  A write to a timer restarts its counter; timer 1 has yet to be charged with
   the `steps` of the batch then, timer 2 has been already.
   */
  function DeviceSection<R>(env: Env<R>, n: nat, s: State<R>, t: Touched, steps: int): State<R>
  {
    if !t.device then s
    else
      var w := env.device(n, s.w);
      State(w, s.c.(timer1 := if t.timer1 then w.t1_tick - steps else s.c.timer1,
                    timer2 := if t.timer2 then w.t2_tick else s.c.timer2), s.log)
  }

  /** The scheduler's sections, from counters charged with the steps of the batch. */
  function Sections<R>(env: Env<R>, n: nat, s: State<R>, t: Touched, steps: int): State<R>
  {
    SettleAll(env, n, DeviceSection(env, n, SettleAll(env, n, s, BEFORE), t, steps), AFTER)
  }

  lemma SettleNext<R>(env: Env<R>, n: nat, s: State<R>, ks: seq<Kind>, i: nat)
    requires i < |ks|
    ensures SettleAll(env, n, s, ks[i..]) == SettleAll(env, n, Settle(env, n, s, ks[i]), ks[i + 1..])
  {
    assert ks[i..][1..] == ks[i + 1..];
  }

  lemma SettleNone<R>(env: Env<R>, n: nat, s: State<R>)
    ensures SettleAll(env, n, s, []) == s
  {
  }

  /** The instruction itself, before any counting. */
  function Executed<R>(env: Env<R>, n: nat, s: State<R>): State<R>
  {
    State(env.exec(n, s.w), if Hurries(env, n, s.w) then s.c.(adjtime := 0) else s.c, s.log)
  }

  function Charge<R>(s: State<R>, steps: int): State<R> { s.(c := s.c.Minus(steps)) }

  /** One instruction, with every counter decremented after it. */
  function RefStep<R>(env: Env<R>, n: nat, s: State<R>): State<R>
  {
    Sections(env, n, Charge(Executed(env, n, s), 1), TouchedBy(env, n, s.w), 1)
  }

  function Initial(t1: int, t2: int): Counters
  {
    Counters(t2, SCHED_RECEIVE, SCHED_ADJTIME, t1, SCHED_STATISTICS, Redraw.SCHED_INSTR_ROLLOVER)
  }

  function RefRun<R>(env: Env<R>, w: World<R>, n: nat): State<R>
  {
    if n == 0 then State(w, Initial(w.t1_tick, w.t2_tick), []) else RefStep(env, n - 1, RefRun(env, w, n - 1))
  }

  lemma {:induction false} QuietSettle<R>(env: Env<R>, n: nat, s: State<R>, ks: seq<Kind>)
    requires s.c.AtLeast(1)
    ensures SettleAll(env, n, s, ks) == s
    decreases |ks|
  {
    if ks != [] { QuietSettle(env, n, s, ks[1..]); }
  }

  const NOTHING := Touched(false, false, false)

  /** Nothing happens at an instruction that runs no counter out. */
  lemma QuietSections<R>(env: Env<R>, n: nat, s: State<R>, steps: int)
    requires s.c.AtLeast(1)
    ensures Sections(env, n, s, NOTHING, steps) == s
  {
    QuietSettle(env, n, s, BEFORE);
    QuietSettle(env, n, s, AFTER);
  }

  // ------------------------------------------- what the batched form computes

  /**
   The state between instructions: raw counters, the instructions since they were last charged,
   the countdown to the next batch, and the pending redraw.
   */
  datatype Batched<R> = Batched(s: State<R>, since: nat, event: int, p: Redraw.Pending)

  function Min(a: int, b: int): int { if b < a then b else a }

  /** The nearest of the counters that are looked at after the devices. */
  function Nearest(first: int, c: Counters): int
  {
    Min(Min(Min(Min(Min(first, c.receive), c.adjtime), c.timer1), c.statistics), c.rollover)
  }

  /** A call of the scheduler after `steps` instructions; timer 2 is looked at before it can be restarted. */
  function Scheduled<R>(env: Env<R>, n: nat, s: State<R>, t: Touched, steps: nat, p: Redraw.Pending): Batched<R>
  {
    var q := Charge(s, steps);
    var first := SettleAll(env, n, q, BEFORE).c.timer2;
    var r, p' := Sections(env, n, q, t, steps), Redraw.Batch(p, steps);
    var shown := if p.check && p'.touched != 0 then Min(first, p'.sched) else first;
    Batched(r, 0, Nearest(shown, r.c) - 1, p')
  }

  /** The instruction makes the scheduler run. */
  predicate Called<R>(env: Env<R>, n: nat, b: Batched<R>)
  {
    b.event <= 0 || Hurries(env, n, b.s.w) || env.accessed(n, b.s.w)
  }

  function BatchStep<R>(env: Env<R>, n: nat, b: Batched<R>): Batched<R>
  {
    var p := Redraw.Touch(b.p, InstrOf(env, n, b.s.w, false));
    if Called(env, n, b)
    then Scheduled(env, n, Executed(env, n, b.s), TouchedBy(env, n, b.s.w), b.since + 1, p)
    else Batched(Executed(env, n, b.s), b.since + 1, b.event - 1, p)
  }

  function BatchRun<R>(env: Env<R>, w: World<R>, n: nat): Batched<R>
  {
    if n == 0 then Batched(State(w, Initial(w.t1_tick, w.t2_tick), []), 0, 0, Redraw.STARTUP)
    else BatchStep(env, n - 1, BatchRun(env, w, n - 1))
  }

  // ---------------------------------------------------------------- the batched form

  class Emulator<!R> {
    const env: Env<R>
    var w: World<R>
    var log: seq<(nat, Kind)>
    var instructions: int
    var old_sched_instr: int
    var schedule_event: int
    var sched_timer2: int
    var sched_receive: int
    var sched_adjtime: int
    var sched_timer1: int
    var sched_statistics: int
    var sched_instr_rollover: int
    var sched_display: int
    var display_touched: int
    var device_check: bool
    var device_touched: bool
    var t1_touched: bool
    var t2_touched: bool

    constructor (env: Env<R>, w: World<R>)
      ensures this.env == env && this.w == w
      ensures Valid() && Touches() == NOTHING && Snapshot() == BatchRun(env, w, 0)
    {
      this.env, this.w, log := env, w, [];
      instructions, old_sched_instr, schedule_event := 0, 0, 0;
      sched_timer1, sched_timer2 := w.t1_tick, w.t2_tick;
      sched_receive, sched_adjtime := SCHED_RECEIVE, SCHED_ADJTIME;
      sched_statistics, sched_instr_rollover := SCHED_STATISTICS, Redraw.SCHED_INSTR_ROLLOVER;
      sched_display, display_touched := Redraw.SCHED_NEVER, 1;
      device_check, device_touched, t1_touched, t2_touched := false, false, false, false;
    }

    /** Touched devices are always due for checking. */
    ghost predicate Valid()
      reads this
    {
      instructions >= old_sched_instr && (device_touched ==> device_check) &&
      (t1_touched || t2_touched ==> device_touched)
    }

    function Batch(): Counters
      reads this
    {
      Counters(sched_timer2, sched_receive, sched_adjtime, sched_timer1, sched_statistics, sched_instr_rollover)
    }

    function View(): State<R>
      reads this
    {
      State(w, Batch(), log)
    }

    function Pending(): Redraw.Pending
      reads this
    {
      Redraw.Pending(display_touched, sched_display, device_check)
    }

    function Touches(): Touched
      reads this
    {
      Touched(device_touched, t1_touched, t2_touched)
    }

    function Snapshot(): Batched<R>
      requires instructions >= old_sched_instr
      reads this
    {
      Batched(View(), instructions - old_sched_instr, schedule_event, Pending())
    }

    /** The redraw countdown: charged with the batch when it has run out, then one off. */
    method CountDisplay(steps: nat)
      requires device_check
      modifies `sched_display, `display_touched, `device_check
      ensures var t := Redraw.Charged(old(Pending()), steps);
              display_touched == (if t > 0 then t - 1 else t) && device_check == (display_touched > 0)
    {
      device_check := false;
      sched_display := sched_display - steps;
      if sched_display <= 0 {
        if display_touched != 0 { display_touched := display_touched - steps; }
        if display_touched < 0 { display_touched := 1; }
      }
      if display_touched > 0 { display_touched := display_touched - 1; }
      if display_touched > 0 { device_check := true; }
    }

    /** The next event is no later than the redraw. */
    method RearmDisplay()
      modifies `sched_display, `schedule_event
      ensures sched_display == if display_touched != 0 && display_touched < Redraw.SCHED_NEVER
                               then display_touched - 1 else Redraw.SCHED_NEVER
      ensures schedule_event == if display_touched != 0 then Min(old(schedule_event), sched_display)
                                else old(schedule_event)
    {
      sched_display := Redraw.SCHED_NEVER;
      if display_touched != 0 {
        if display_touched < sched_display { sched_display := display_touched - 1; }
        if sched_display < schedule_event { schedule_event := sched_display; }
      }
    }

    /** The work for touched devices; timers written to start over. */
    method TouchDevices(n: nat, steps: nat, ghost s: State<R>) returns (ghost s': State<R>)
      requires (t1_touched || t2_touched ==> device_touched) && s.w == w && s.log == log
      requires s.c.timer1 == sched_timer1 - steps && s.c.timer2 == sched_timer2
      modifies `w, `device_touched, `t1_touched, `t2_touched, `sched_timer1, `sched_timer2
      ensures Touches() == NOTHING && s' == DeviceSection(env, n, s, old(Touches()), steps)
      ensures s' == State(w, s.c.(timer1 := sched_timer1 - steps, timer2 := sched_timer2), log)
    {
      s' := DeviceSection(env, n, s, Touches(), steps);
      if device_touched { w := env.device(n, w); }
      if t1_touched { sched_timer1 := w.t1_tick; }
      if t2_touched { sched_timer2 := w.t2_tick; }
      device_touched, t1_touched, t2_touched := false, false, false;
    }

    /** Touched devices; a change of the display is drawn only after a number of instructions. */
    method CheckDevices(n: nat, steps: nat, ghost s: State<R>) returns (ghost s': State<R>)
      requires Valid() && s.w == w && s.log == log
      requires s.c.timer1 == sched_timer1 - steps && s.c.timer2 == sched_timer2
      modifies `w, `sched_display, `display_touched, `device_check, `device_touched, `t1_touched, `t2_touched
      modifies `schedule_event, `sched_timer1, `sched_timer2
      ensures Touches() == NOTHING && Pending() == Redraw.Batch(old(Pending()), steps)
      ensures s' == DeviceSection(env, n, s, old(Touches()), steps)
      ensures s' == State(w, s.c.(timer1 := sched_timer1 - steps, timer2 := sched_timer2), log)
      ensures schedule_event == if old(device_check) && display_touched != 0
                                then Min(old(schedule_event), sched_display) else old(schedule_event)
    {
      s' := s;
      if device_check {
        CountDisplay(steps);
        hide DeviceSection, Redraw.Charged;
        s' := TouchDevices(n, steps, s);
        RearmDisplay();
      }
    }

    /**
     One section, number `i` of `ks`: a counter already charged with the elapsed steps is
     reloaded if it is due, and the next event is no later than it.
     */
    method Section(k: Kind, n: nat, charged: int, ghost s: State<R>, ghost ks: seq<Kind>, ghost i: nat)
      returns (c: int, ghost s': State<R>)
      requires s.w == w && s.log == log && s.c.Get(k) == charged && i < |ks| && ks[i] == k
      modifies `w, `log, `schedule_event
      ensures SettleAll(env, n, s', ks[i + 1..]) == SettleAll(env, n, s, ks[i..])
      ensures s' == State(w, s.c.Set(k, c), log)
      ensures schedule_event == Min(old(schedule_event), c)
    {
      SettleNext(env, n, s, ks, i);
      c, s' := charged, Settle(env, n, s, k);
      if c <= 0 {
        c := Reload(k, w);
        if k != Adjtime {
          w := env.fire(k, n, w);
        } else if OutsideClockService(w.pc) {
          w := env.fire(k, n, w).(adj_pending := false);
        } else {
          w := w.(adj_pending := true);
        }
        log := log + [(n, k)];
      }
      if c < schedule_event { schedule_event := c; }
    }

    /** Timer 2, touched devices and the serial line. */
    method ScheduleInput(n: nat, steps: nat, ghost s: State<R>) returns (ghost s': State<R>)
      requires Valid() && s == Charge(View(), steps)
      modifies `w, `log, `schedule_event, `sched_timer1, `sched_timer2, `sched_receive
      modifies `sched_display, `display_touched, `device_check, `device_touched, `t1_touched, `t2_touched
      ensures Touches() == NOTHING && Pending() == Redraw.Batch(old(Pending()), steps)
      ensures SettleAll(env, n, s', AFTER[1..]) == Sections(env, n, s, old(Touches()), steps)
      ensures s' == State(w, s.c.(timer1 := sched_timer1 - steps, timer2 := sched_timer2, receive := sched_receive),
                          log)
      ensures var first := SettleAll(env, n, s, BEFORE).c.timer2;
              schedule_event == Min(if old(device_check) && display_touched != 0 then Min(first, sched_display)
                                    else first, sched_receive)
    {
      hide SettleAll, DeviceSection, Redraw.Batch;
      ghost var t, before, after := Touches(), BEFORE, AFTER;
      assert before[0..] == before && after[0..] == after && before[1..] == [];
      sched_timer2, s' := Section(Timer2, n, sched_timer2 - steps, s, before, 0);
      SettleNone(env, n, s');
      schedule_event := sched_timer2;
      s' := CheckDevices(n, steps, s');
      sched_receive, s' := Section(Receive, n, sched_receive - steps, s', after, 0);
    }

    /** Time adjustment and timer 1. */
    method ScheduleClock(n: nat, steps: nat, ghost s: State<R>) returns (ghost s': State<R>)
      requires s.w == w && s.log == log
      requires s.c.adjtime == sched_adjtime - steps && s.c.timer1 == sched_timer1 - steps
      modifies `w, `log, `schedule_event, `sched_adjtime, `sched_timer1
      ensures SettleAll(env, n, s', AFTER[3..]) == SettleAll(env, n, s, AFTER[1..])
      ensures s' == State(w, s.c.(adjtime := sched_adjtime, timer1 := sched_timer1), log)
      ensures schedule_event == Min(Min(old(schedule_event), sched_adjtime), sched_timer1)
    {
      ghost var after := AFTER;
      sched_adjtime, s' := Section(Adjtime, n, sched_adjtime - steps, s, after, 1);
      sched_timer1, s' := Section(Timer1, n, sched_timer1 - steps, s', after, 2);
    }

    /** Statistics and the instruction counter. */
    method ScheduleCounts(n: nat, steps: nat, ghost s: State<R>) returns (ghost s': State<R>)
      requires s.w == w && s.log == log && instructions == old_sched_instr
      requires s.c.statistics == sched_statistics - steps && s.c.rollover == sched_instr_rollover - steps
      modifies `w, `log, `schedule_event, `instructions, `old_sched_instr, `sched_statistics, `sched_instr_rollover
      ensures s' == SettleAll(env, n, s, AFTER[3..]) && instructions == old_sched_instr
      ensures s' == State(w, s.c.(statistics := sched_statistics, rollover := sched_instr_rollover), log)
      ensures schedule_event == Min(Min(old(schedule_event), sched_statistics), sched_instr_rollover)
    {
      ghost var after := AFTER;
      assert after[5..] == [];
      sched_statistics, s' := Section(Statistics, n, sched_statistics - steps, s, after, 3);
      if sched_instr_rollover - steps <= 0 {
        instructions := 1;
        old_sched_instr := 1;
      }
      sched_instr_rollover, s' := Section(Rollover, n, sched_instr_rollover - steps, s', after, 4);
    }

    /** Everything after the serial line. */
    method ScheduleRest(n: nat, steps: nat, ghost s: State<R>) returns (ghost s': State<R>)
      requires s == State(w, Batch().Minus(steps).(timer2 := sched_timer2, receive := sched_receive), log)
      requires instructions == old_sched_instr
      modifies `w, `log, `schedule_event, `instructions, `old_sched_instr
      modifies `sched_adjtime, `sched_timer1, `sched_statistics, `sched_instr_rollover
      ensures s' == SettleAll(env, n, s, AFTER[1..]) == View() && instructions == old_sched_instr
      ensures schedule_event ==
                Min(Min(Min(Min(old(schedule_event), sched_adjtime), sched_timer1), sched_statistics),
                    sched_instr_rollover)
    {
      s' := ScheduleClock(n, steps, s);
      s' := ScheduleCounts(n, steps, s');
    }

    /** All sections, on counters that have yet to be charged with the steps of the batch. */
    method ScheduleAll(n: nat, steps: nat)
      requires Valid() && instructions == old_sched_instr
      modifies this
      ensures Valid() && Touches() == NOTHING && instructions == old_sched_instr
      ensures Pending() == Redraw.Batch(old(Pending()), steps)
      ensures View() == Sections(env, n, Charge(old(View()), steps), old(Touches()), steps)
      ensures var first := SettleAll(env, n, Charge(old(View()), steps), BEFORE).c.timer2;
              schedule_event == Nearest(if old(device_check) && display_touched != 0 then Min(first, sched_display)
                                        else first, Batch())
    {
      hide SettleAll, Sections, DeviceSection, Redraw.Batch, Min;
      ghost var s := ScheduleInput(n, steps, Charge(View(), steps));
      s := ScheduleRest(n, steps, s);
    }

    method Schedule(n: nat)
      requires Valid()
      modifies this
      ensures Valid() && Touches() == NOTHING
      ensures Snapshot() ==
                Scheduled(env, n, old(View()), old(Touches()), old(instructions - old_sched_instr), old(Pending()))
    {
      hide SettleAll, Sections, DeviceSection, Redraw.Batch, Nearest, Min;
      var steps: nat := instructions - old_sched_instr;
      old_sched_instr := instructions;
      ScheduleAll(n, steps);
      schedule_event := schedule_event - 1;
    }

    /** An access to a device register, and what it leaves to be done. */
    method Access(n: nat)
      requires Valid() && Touches() == NOTHING
      modifies `schedule_event, `device_check, `device_touched, `display_touched, `t1_touched, `t2_touched
      ensures Valid() && Touches() == TouchedBy(env, n, w)
      ensures Pending() == Redraw.Touch(old(Pending()), InstrOf(env, n, w, false))
      ensures schedule_event == if env.accessed(n, w) then 0 else old(schedule_event)
    {
      if env.accessed(n, w) {
        device_check, device_touched := true, true;
        schedule_event := 0;
        if env.geometry(n, w) { display_touched := Redraw.DISP_INSTR_OFF; }
        t1_touched, t2_touched := env.timer1(n, w), env.timer2(n, w);
      }
      if env.shutdown(n, w) { display_touched := 0; }
    }

    /** The instruction, with what an RTI does to the time adjustment. */
    method Execute(n: nat)
      modifies `w, `schedule_event, `sched_adjtime, `instructions
      ensures View() == Executed(env, n, old(View())) && instructions == old(instructions) + 1
      ensures schedule_event == if Hurries(env, n, old(w)) then 0 else old(schedule_event)
    {
      if env.rti(n, w) && w.adj_pending {
        schedule_event := 0;
        sched_adjtime := 0;
      }
      w := env.exec(n, w);
      instructions := instructions + 1;
    }

    method StepInstruction(n: nat)
      requires Valid() && Touches() == NOTHING
      modifies this
      ensures Valid() && instructions == old(instructions) + 1 && old_sched_instr == old(old_sched_instr)
      ensures View() == Executed(env, n, old(View())) && Touches() == TouchedBy(env, n, old(w))
      ensures Pending() == Redraw.Touch(old(Pending()), InstrOf(env, n, old(w), false))
      ensures schedule_event ==
                if Hurries(env, n, old(w)) || env.accessed(n, old(w)) then 0 else old(schedule_event)
    {
      hide TouchedBy, InstrOf, Redraw.Touch, Executed, Hurries;
      Access(n);
      Execute(n);
    }

    /** The emulator's loop computes the batched run. */
    method Emulate(count: nat)
      requires Valid() && Touches() == NOTHING && Snapshot() == BatchRun(env, w, 0)
      modifies this
      ensures Valid() && Snapshot() == BatchRun(env, old(w), count)
    {
      ghost var w0 := w;
      for n := 0 to count
        invariant Valid() && Touches() == NOTHING && Snapshot() == BatchRun(env, w0, n)
      {
        Iterate(n);
      }
    }

    method Iterate(n: nat)
      requires Valid() && Touches() == NOTHING
      modifies this
      ensures Valid() && Touches() == NOTHING && Snapshot() == BatchStep(env, n, old(Snapshot()))
    {
      hide Scheduled;
      StepInstruction(n);
      var now := schedule_event <= 0;
      schedule_event := schedule_event - 1;
      if now { Schedule(n); }
    }
  }

  // ------------------------------------------------------- sections, counter by counter

  /** The counters that restart from a constant. */
  function Const(k: Kind): int
  {
    match k
    case Receive => SCHED_RECEIVE
    case Adjtime => SCHED_ADJTIME
    case Statistics => SCHED_STATISTICS
    case Rollover => Redraw.SCHED_INSTR_ROLLOVER
    case _ => 0
  }

  /** The log of an instruction only grows, by events of that instruction. */
  ghost predicate Grows(was: seq<(nat, Kind)>, log: seq<(nat, Kind)>, n: nat, ks: seq<Kind>)
  {
    was <= log && forall i :: |was| <= i < |log| ==> log[i].0 == n && log[i].1 in ks
  }

  lemma {:induction false} SettleGrows<R>(env: Env<R>, n: nat, s: State<R>, ks: seq<Kind>)
    ensures Grows(s.log, SettleAll(env, n, s, ks).log, n, ks)
    decreases |ks|
  {
    if ks != [] { SettleGrows(env, n, Settle(env, n, s, ks[0]), ks[1..]); }
  }

  lemma {:induction false} SettleOne<R>(env: Env<R>, n: nat, s: State<R>, ks: seq<Kind>, k: Kind)
    requires Const(k) > 0
    ensures var s' := SettleAll(env, n, s, ks);
            s'.c.Get(k) == (if k in ks && s.c.Get(k) <= 0 then Const(k) else s.c.Get(k)) &&
            ((n, k) in s'.log <==> (n, k) in s.log || (k in ks && s.c.Get(k) <= 0))
    decreases |ks|
  {
    if ks != [] {
      var s1 := Settle(env, n, s, ks[0]);
      assert s1.c.Get(k) == if ks[0] == k && s.c.Get(k) <= 0 then Const(k) else s.c.Get(k);
      SettleOne(env, n, s1, ks[1..], k);
    }
  }

  /** A counter that is not due stays. */
  lemma {:induction false} SettleKeeps<R>(env: Env<R>, n: nat, s: State<R>, ks: seq<Kind>, k: Kind)
    requires s.c.Get(k) > 0
    ensures SettleAll(env, n, s, ks).c.Get(k) == s.c.Get(k)
    decreases |ks|
  {
    if ks != [] { SettleKeeps(env, n, Settle(env, n, s, ks[0]), ks[1..], k); }
  }

  lemma SectionsOne<R>(env: Env<R>, n: nat, s: State<R>, t: Touched, steps: int, k: Kind)
    requires Const(k) > 0
    ensures var s' := Sections(env, n, s, t, steps);
            s'.c.Get(k) == (if s.c.Get(k) <= 0 then Const(k) else s.c.Get(k)) &&
            ((n, k) in s'.log <==> (n, k) in s.log || s.c.Get(k) <= 0)
  {
    var s1 := SettleAll(env, n, s, BEFORE);
    SettleOne(env, n, s, BEFORE, k);
    SettleOne(env, n, DeviceSection(env, n, s1, t, steps), AFTER, k);
    hide SettleAll;
  }

  lemma SectionsGrow<R>(env: Env<R>, n: nat, s: State<R>, t: Touched, steps: int)
    ensures var log := Sections(env, n, s, t, steps).log;
            s.log <= log && forall i :: |s.log| <= i < |log| ==> log[i].0 == n
  {
    var s1 := SettleAll(env, n, s, BEFORE);
    SettleGrows(env, n, s, BEFORE);
    SettleGrows(env, n, DeviceSection(env, n, s1, t, steps), AFTER);
    hide SettleAll;
  }

  // ------------------------------------------------------------- between instructions

  ghost predicate Sound(p: Redraw.Pending)
  {
    p.touched >= 0 && (!p.check ==> p.sched == Redraw.SCHED_NEVER)
  }

  /** The next batch comes before any counter but timer 2 has run out, and in time for a redraw. */
  ghost predicate Tight<R>(b: Batched<R>)
  {
    b.s.c.rollover <= Redraw.SCHED_INSTR_ROLLOVER && Sound(b.p) &&
    (b.event > 0 ==>
       var e, c := b.since + b.event + 1, b.s.c;
       e <= c.receive && e <= c.adjtime && e <= c.timer1 && e <= c.statistics && e <= c.rollover &&
       (b.p.check ==> e <= b.p.sched))
  }

  lemma ScheduledTight<R>(env: Env<R>, n: nat, s: State<R>, t: Touched, steps: nat, p: Redraw.Pending)
    requires s.c.rollover <= Redraw.SCHED_INSTR_ROLLOVER && Sound(p)
    ensures Tight(Scheduled(env, n, s, t, steps, p))
  {
    hide Sections, SettleAll;
    SectionsOne(env, n, Charge(s, steps), t, steps, Rollover);
    SoundBatch(p, steps);
  }

  lemma SoundBatch(p: Redraw.Pending, steps: nat)
    requires Sound(p)
    ensures var p' := Redraw.Batch(p, steps); Sound(p') && (p'.check ==> p.check && p'.touched != 0)
  {
  }

  lemma ExecutedSound<R>(env: Env<R>, n: nat, b: Batched<R>)
    requires Tight(b)
    ensures Executed(env, n, b.s).c.rollover == b.s.c.rollover <= Redraw.SCHED_INSTR_ROLLOVER
    ensures Sound(Redraw.Touch(b.p, InstrOf(env, n, b.s.w, false)))
  {
  }

  lemma CalledTight<R>(env: Env<R>, n: nat, b: Batched<R>)
    requires Tight(b) && Called(env, n, b)
    ensures Tight(BatchStep(env, n, b))
  {
    hide Tight, Sound, Called, Scheduled, Executed, Redraw.Touch, InstrOf, TouchedBy;
    ExecutedSound(env, n, b);
    var p := Redraw.Touch(b.p, InstrOf(env, n, b.s.w, false));
    ScheduledTight(env, n, Executed(env, n, b.s), TouchedBy(env, n, b.s.w), b.since + 1, p);
  }

  lemma QuietTight<R>(env: Env<R>, n: nat, b: Batched<R>)
    requires Tight(b) && !Called(env, n, b)
    ensures Tight(BatchStep(env, n, b))
  {
    hide Scheduled;
  }

  lemma StepTight<R>(env: Env<R>, n: nat, b: Batched<R>)
    requires Tight(b)
    ensures Tight(BatchStep(env, n, b))
  {
    hide *;
    if Called(env, n, b) { CalledTight(env, n, b); } else { QuietTight(env, n, b); }
  }

  lemma StartTight<R>(env: Env<R>, w: World<R>)
    ensures Tight(BatchRun(env, w, 0))
    ensures BatchRun(env, w, 0).s == RefRun(env, w, 0) && BatchRun(env, w, 0).since == 0
  {
    hide BatchStep, RefStep;
  }

  lemma BatchNext<R>(env: Env<R>, w: World<R>, n: nat)
    ensures BatchRun(env, w, n + 1) == BatchStep(env, n, BatchRun(env, w, n))
  {
    hide BatchStep;
  }

  lemma {:induction false} RunTight<R>(env: Env<R>, w: World<R>, n: nat)
    ensures Tight(BatchRun(env, w, n))
  {
    hide BatchRun, BatchStep, Tight;
    if n == 0 {
      StartTight(env, w);
    } else {
      BatchNext(env, w, n - 1);
      RunTight(env, w, n - 1);
      StepTight(env, n - 1, BatchRun(env, w, n - 1));
    }
  }

  // ------------------------------------- the counters that no timer write can disturb

  /** A counter decremented once per instruction of the batched run. */
  function Down<R>(env: Env<R>, w: World<R>, k: Kind, n: nat): int
    decreases n, 0
  {
    if n == 0 then Const(k) else if Due(env, w, k, n - 1) then Const(k) else Down(env, w, k, n - 1) - 1
  }

  /** It runs out, or an RTI makes the time adjustment due. */
  predicate Due<R>(env: Env<R>, w: World<R>, k: Kind, n: nat)
    decreases n, 1
  {
    Down(env, w, k, n) <= 1 || (k == Adjtime && Hurries(env, n, BatchRun(env, w, n).s.w))
  }

  /** The counter in the batched state, charged with the instructions of the batch so far. */
  function Charged<R>(b: Batched<R>, k: Kind): int { b.s.c.Get(k) - b.since }

  lemma StepOne<R>(env: Env<R>, n: nat, b: Batched<R>, k: Kind)
    requires Tight(b) && Const(k) > 0
    ensures var b' := BatchStep(env, n, b);
            var due := Charged(b, k) <= 1 || (k == Adjtime && Hurries(env, n, b.s.w));
            Charged(b', k) == (if due then Const(k) else Charged(b, k) - 1) &&
            ((n, k) in b'.s.log <==> (n, k) in b.s.log || due)
  {
    hide Sections, SettleAll, Redraw.Batch, Redraw.Touch, InstrOf, TouchedBy;
    if Called(env, n, b) {
      var q := Charge(Executed(env, n, b.s), b.since + 1);
      hide Tight;
      SectionsOne(env, n, q, TouchedBy(env, n, b.s.w), b.since + 1, k);
    }
  }

  /** The log of one more instruction. */
  lemma StepGrows<R>(env: Env<R>, n: nat, b: Batched<R>)
    ensures var log := BatchStep(env, n, b).s.log;
            b.s.log <= log && forall i :: |b.s.log| <= i < |log| ==> log[i].0 == n
  {
    hide Sections, SettleAll, Redraw.Batch, Redraw.Touch, InstrOf, TouchedBy;
    if Called(env, n, b) {
      var q := Charge(Executed(env, n, b.s), b.since + 1);
      SectionsGrow(env, n, q, TouchedBy(env, n, b.s.w), b.since + 1);
    }
  }

  lemma GrownEntries(was: seq<(nat, Kind)>, log: seq<(nat, Kind)>, n: nat, m: nat, k: Kind)
    requires was <= log && (forall i :: |was| <= i < |log| ==> log[i].0 == n) && m != n
    ensures (m, k) in log <==> (m, k) in was
  {
    if (m, k) in was { var i :| 0 <= i < |was| && was[i] == (m, k); assert log[i] == (m, k); }
  }

  lemma StartFires<R>(env: Env<R>, w: World<R>, k: Kind)
    requires Const(k) > 0
    ensures Charged(BatchRun(env, w, 0), k) == Const(k) && BatchRun(env, w, 0).s.log == []
  {
    hide BatchStep;
  }

  /**
   Serial polling, time adjustment, statistics and rollover come at exactly the instructions at
   which a counter decremented once per instruction runs out (or an RTI asks for the adjustment),
   whatever device accesses and timer writes do to the batches.
   */
  lemma {:induction false} FiresExactly<R>(env: Env<R>, w: World<R>, n: nat, m: nat, k: Kind)
    requires k in {Receive, Adjtime, Statistics, Rollover}
    ensures Charged(BatchRun(env, w, n), k) == Down(env, w, k, n)
    ensures (m, k) in BatchRun(env, w, n).s.log <==> m < n && Due(env, w, k, m)
  {
    hide Tight, BatchStep, BatchRun, Charged;
    if n == 0 {
      StartFires(env, w, k);
    } else {
      var b := BatchRun(env, w, n - 1);
      BatchNext(env, w, n - 1);
      FiresExactly(env, w, n - 1, m, k);
      RunTight(env, w, n - 1);
      StepOne(env, n - 1, b, k);
      StepGrows(env, n - 1, b);
      if m != n - 1 { GrownEntries(b.s.log, BatchStep(env, n - 1, b).s.log, n - 1, m, k); }
    }
  }

  lemma ModNext(n: nat, p: nat, r: nat)
    requires 0 < p && r == n % p
    ensures (n + 1) % p == if r == p - 1 then 0 else r + 1
  {
    var q, q' := n / p, (n + 1) / p;
    assert n == p * q + r && n + 1 == p * q' + (n + 1) % p;
    if r == p - 1 {
      Distribute(p, q, 1);
      DigitUnique(p, (n + 1) % p, 0, q', q + 1);
    } else {
      DigitUnique(p, (n + 1) % p, r + 1, q', q);
    }
  }

  /** All but the adjustment recur with fixed periods. */
  lemma {:induction false} FixedPeriod<R>(env: Env<R>, w: World<R>, n: nat, k: Kind)
    requires k in {Receive, Statistics, Rollover}
    ensures Down(env, w, k, n) == Const(k) - n % Const(k)
    ensures Due(env, w, k, n) <==> (n + 1) % Const(k) == 0
  {
    ModNext(n, Const(k), n % Const(k));
    if n > 0 {
      FixedPeriod(env, w, n - 1, k);
      ModNext(n - 1, Const(k), (n - 1) % Const(k));
    }
  }

  // ------------------------------------------- when the two forms are the same machine

  /** The batched state with its counters charged is the per-instruction state. */
  ghost predicate Same<R>(b: Batched<R>, r: State<R>) { Charge(b.s, b.since) == r }

  /** What timer 1 restarts from if the instruction writes to it. */
  function Restart<R>(env: Env<R>, n: nat, b: Batched<R>): int
  {
    env.device(n, SettleAll(env, n, Charge(Executed(env, n, b.s), b.since + 1), BEFORE).w).t1_tick
  }

  /**
   A batch of more than one instruction does not restart timer 1, unless to run out at once; and
   between batches timer 2 is not overdue.
   */
  predicate Agrees<R>(env: Env<R>, n: nat, b: Batched<R>)
  {
    if Called(env, n, b)
    then TouchedBy(env, n, b.s.w).timer1 && b.since >= 1 ==> Restart(env, n, b) <= 1
    else b.s.c.timer2 - b.since >= 2
  }

  /** States that differ at most in how far some counters of `ks` that are due have run down. */
  ghost predicate Alike<R>(s: State<R>, t: State<R>, ks: seq<Kind>)
  {
    s.w == t.w && s.log == t.log &&
    forall k: Kind :: s.c.Get(k) == t.c.Get(k) || (s.c.Get(k) <= 0 && t.c.Get(k) <= 0 && k in ks)
  }

  lemma SameCounters(c: Counters, d: Counters)
    requires forall k: Kind :: c.Get(k) == d.Get(k)
    ensures c == d
  {
    assert c.Get(Timer2) == d.Get(Timer2) && c.Get(Receive) == d.Get(Receive) && c.Get(Adjtime) == d.Get(Adjtime);
    assert c.Get(Timer1) == d.Get(Timer1) && c.Get(Statistics) == d.Get(Statistics);
    assert c.Get(Rollover) == d.Get(Rollover);
  }

  lemma AlikeStep<R>(env: Env<R>, n: nat, s: State<R>, t: State<R>, ks: seq<Kind>)
    requires ks != [] && Alike(s, t, ks)
    ensures Alike(Settle(env, n, s, ks[0]), Settle(env, n, t, ks[0]), ks[1..])
  {
    var k := ks[0];
    var s', t' := Settle(env, n, s, k), Settle(env, n, t, k);
    assert s.c.Get(k) == t.c.Get(k) || (s.c.Get(k) <= 0 && t.c.Get(k) <= 0);
    forall j: Kind
      ensures s'.c.Get(j) == t'.c.Get(j) || (s'.c.Get(j) <= 0 && t'.c.Get(j) <= 0 && j in ks[1..])
    {
      assert s.c.Get(j) == t.c.Get(j) || (s.c.Get(j) <= 0 && t.c.Get(j) <= 0 && j in ks);
    }
  }

  /** A due counter is reloaded whatever it has run down to. */
  lemma {:induction false} AlikeSettle<R>(env: Env<R>, n: nat, s: State<R>, t: State<R>, ks: seq<Kind>)
    requires Alike(s, t, ks)
    ensures SettleAll(env, n, s, ks) == SettleAll(env, n, t, ks)
    decreases |ks|
  {
    if ks == [] {
      SameCounters(s.c, t.c);
    } else {
      AlikeStep(env, n, s, t, ks);
      AlikeSettle(env, n, Settle(env, n, s, ks[0]), Settle(env, n, t, ks[0]), ks[1..]);
    }
  }

  /** Both forms up to the device section: alike but for an adjustment that is due in both. */
  lemma BothCharged<R>(env: Env<R>, n: nat, b: Batched<R>, r: State<R>)
    requires Same(b, r)
    ensures var p := SettleAll(env, n, Charge(Executed(env, n, b.s), b.since + 1), BEFORE);
            var q := SettleAll(env, n, Charge(Executed(env, n, r), 1), BEFORE);
            Alike(p, q, [Adjtime])
  {
    var p, q := Charge(Executed(env, n, b.s), b.since + 1), Charge(Executed(env, n, r), 1);
    assert p == q || (p.c.adjtime <= 0 && q.c.adjtime <= 0 && q == p.(c := p.c.(adjtime := q.c.adjtime)));
    hide Charge, Executed;
    SettleNone(env, n, Settle(env, n, p, Timer2));
    SettleNone(env, n, Settle(env, n, q, Timer2));
    assert BEFORE[1..] == [];
  }

  /** After the device section: timer 1, if it was written to, has been charged differently. */
  lemma BothTouched<R>(env: Env<R>, n: nat, p: State<R>, q: State<R>, t: Touched, steps: nat)
    requires Alike(p, q, [Adjtime]) && steps >= 1 && (t.timer1 ==> t.device)
    ensures var p', q' := DeviceSection(env, n, p, t, steps), DeviceSection(env, n, q, t, 1);
            var tick := env.device(n, p.w).t1_tick;
            if t.timer1 && steps > 1 && tick > 1
            then q'.c.timer1 > 0 && p'.c.timer1 < q'.c.timer1 &&
                 Alike(p', q'.(c := q'.c.(timer1 := p'.c.timer1)), [Adjtime])
            else Alike(p', q', AFTER)
  {
    forall k: Kind ensures p.c.Get(k) == q.c.Get(k) || (p.c.Get(k) <= 0 && q.c.Get(k) <= 0 && k == Adjtime) {}
    assert p.c.Get(Timer2) == q.c.Get(Timer2) && p.c.Get(Receive) == q.c.Get(Receive);
    assert p.c.Get(Timer1) == q.c.Get(Timer1) && p.c.Get(Statistics) == q.c.Get(Statistics);
    assert p.c.Get(Rollover) == q.c.Get(Rollover);
    assert p.c.Get(Adjtime) == q.c.Get(Adjtime) || (p.c.Get(Adjtime) <= 0 && q.c.Get(Adjtime) <= 0);
  }

  /** A timer 1 that has run down further ends up different, or has fired. */
  lemma TimerOneTells<R>(env: Env<R>, n: nat, p: State<R>, q: State<R>)
    requires q.c.timer1 > 0 && p.c.timer1 < q.c.timer1
    requires Alike(p, q.(c := q.c.(timer1 := p.c.timer1)), [Adjtime])
    ensures SettleAll(env, n, p, AFTER) != SettleAll(env, n, q, AFTER)
  {
    if p.c.timer1 > 0 {
      SettleKeeps(env, n, p, AFTER, Timer1);
      SettleKeeps(env, n, q, AFTER, Timer1);
    } else {
      var p1, q1 := Settle(env, n, p, Receive), Settle(env, n, q, Receive);
      var p2, q2 := Settle(env, n, p1, Adjtime), Settle(env, n, q1, Adjtime);
      FirstTwo(env, n, p, q);
      var p3 := Settle(env, n, p2, Timer1);
      AfterTwo(env, n, p);
      AfterTwo(env, n, q);
      SettleGrows(env, n, p3, [Statistics, Rollover]);
      SettleGrows(env, n, q2, [Statistics, Rollover]);
      assert p3.log[|q2.log|] == (n, Timer1);
    }
  }

  lemma FirstTwo<R>(env: Env<R>, n: nat, p: State<R>, q: State<R>)
    requires Alike(p, q.(c := q.c.(timer1 := p.c.timer1)), [Adjtime])
    ensures var p2 := Settle(env, n, Settle(env, n, p, Receive), Adjtime);
            var q2 := Settle(env, n, Settle(env, n, q, Receive), Adjtime);
            p2.log == q2.log && p2.c.timer1 == p.c.timer1 && q2.c.timer1 == q.c.timer1
  {
    var d := q.c.(timer1 := p.c.timer1);
    assert p.c.Get(Receive) == d.Get(Receive);
    assert p.c.Get(Adjtime) == d.Get(Adjtime) || (p.c.Get(Adjtime) <= 0 && d.Get(Adjtime) <= 0);
  }

  lemma AfterTwo<R>(env: Env<R>, n: nat, p: State<R>)
    ensures var p2 := Settle(env, n, Settle(env, n, p, Receive), Adjtime);
            SettleAll(env, n, p, AFTER) == SettleAll(env, n, Settle(env, n, p2, Timer1), [Statistics, Rollover])
  {
    hide Settle;
    var after := AFTER;
    assert after == after[0..] && after[3..] == [Statistics, Rollover];
    SettleNext(env, n, p, after, 0);
    SettleNext(env, n, Settle(env, n, p, Receive), after, 1);
    SettleNext(env, n, Settle(env, n, Settle(env, n, p, Receive), Adjtime), after, 2);
  }

  /** A timer 2 that ran out between batches has fired in the per-instruction form. */
  lemma OverdueTells<R>(env: Env<R>, n: nat, s: State<R>)
    requires s.c.timer2 <= 0
    ensures Sections(env, n, s, NOTHING, 1) != s
  {
    var s1 := Settle(env, n, s, Timer2);
    SettleNone(env, n, s1);
    assert BEFORE[1..] == [];
    SettleGrows(env, n, s1, AFTER);
  }

  /** One instruction keeps the two forms the same machine exactly when it agrees. */
  lemma StepSame<R>(env: Env<R>, n: nat, b: Batched<R>, r: State<R>)
    requires Tight(b) && Same(b, r)
    ensures Same(BatchStep(env, n, b), RefStep(env, n, r)) <==> Agrees(env, n, b)
  {
    if Called(env, n, b) { CalledSame(env, n, b, r); } else { QuietSame(env, n, b, r); }
  }

  lemma QuietSame<R>(env: Env<R>, n: nat, b: Batched<R>, r: State<R>)
    requires Tight(b) && Same(b, r) && !Called(env, n, b)
    ensures Same(BatchStep(env, n, b), RefStep(env, n, r)) <==> Agrees(env, n, b)
  {
    var q := Charge(Executed(env, n, r), 1);
    assert Charge(Executed(env, n, b.s), b.since + 1) == q;
    hide SettleAll, DeviceSection, Sections;
    if b.s.c.timer2 - b.since >= 2 { QuietSections(env, n, q, 1); } else { OverdueTells(env, n, q); }
  }

  lemma CalledSame<R>(env: Env<R>, n: nat, b: Batched<R>, r: State<R>)
    requires Same(b, r) && Called(env, n, b)
    ensures Same(BatchStep(env, n, b), RefStep(env, n, r)) <==> Agrees(env, n, b)
  {
    var t, steps := TouchedBy(env, n, b.s.w), b.since + 1;
    hide SettleAll, DeviceSection, Executed, Charge, Alike;
    var p := SettleAll(env, n, Charge(Executed(env, n, b.s), steps), BEFORE);
    var q := SettleAll(env, n, Charge(Executed(env, n, r), 1), BEFORE);
    BothCharged(env, n, b, r);
    BothTouched(env, n, p, q, t, steps);
    var p', q' := DeviceSection(env, n, p, t, steps), DeviceSection(env, n, q, t, 1);
    if t.timer1 && steps > 1 && env.device(n, p.w).t1_tick > 1 {
      TimerOneTells(env, n, p', q');
    } else {
      AlikeSettle(env, n, p', q', AFTER);
    }
    ChargeNone(BatchStep(env, n, b).s);
    SameWorld(b, r);
  }

  lemma ChargeNone<R>(s: State<R>)
    ensures Charge(s, 0) == s
  {
  }

  lemma SameWorld<R>(b: Batched<R>, r: State<R>)
    requires Same(b, r)
    ensures b.s.w == r.w
  {
  }

  lemma RefNext<R>(env: Env<R>, w: World<R>, n: nat)
    ensures RefRun(env, w, n + 1) == RefStep(env, n, RefRun(env, w, n))
  {
    hide RefStep;
  }

  /** The batched and the per-instruction form are the same machine up to an instruction. */
  ghost predicate SameAt<R>(env: Env<R>, w: World<R>, n: nat) { Same(BatchRun(env, w, n), RefRun(env, w, n)) }

  ghost predicate AgreesAt<R>(env: Env<R>, w: World<R>, n: nat) { Agrees(env, n, BatchRun(env, w, n)) }

  lemma NextSame<R>(env: Env<R>, w: World<R>, n: nat)
    requires SameAt(env, w, n)
    ensures SameAt(env, w, n + 1) <==> AgreesAt(env, w, n)
  {
    hide BatchRun, BatchStep, RefRun, RefStep, Agrees, Same, Tight;
    RunTight(env, w, n);
    BatchNext(env, w, n);
    RefNext(env, w, n);
    StepSame(env, n, BatchRun(env, w, n), RefRun(env, w, n));
  }

  /** The two forms are the same machine, with the same events, exactly as long as every instruction agrees. */
  lemma {:induction false} SameExactly<R>(env: Env<R>, w: World<R>, n: nat)
    ensures (forall i: nat :: i <= n ==> SameAt(env, w, i)) <==> (forall i: nat :: i < n ==> AgreesAt(env, w, i))
  {
    hide SameAt, AgreesAt;
    StartSame(env, w);
    if n > 0 {
      SameExactly(env, w, n - 1);
      if SameAt(env, w, n - 1) { NextSame(env, w, n - 1); }
      if forall i: nat :: i < n ==> AgreesAt(env, w, i) {
        assert AgreesAt(env, w, n - 1) && SameAt(env, w, n - 1);
        forall i: nat | i <= n ensures SameAt(env, w, i) {}
      }
    }
  }

  lemma StartSame<R>(env: Env<R>, w: World<R>)
    ensures SameAt(env, w, 0)
  {
    StartTight(env, w);
    hide BatchRun, RefRun;
  }

  // -------------------------------------------- conditions a program can meet

  /**
   A write to timer 1 comes in the first instruction of its batch, or restarts it to run out at
   once; a write to timer 2 leaves it enough for the batch to come.
   */
  predicate Punctual<R>(env: Env<R>, n: nat, b: Batched<R>)
  {
    var t := TouchedBy(env, n, b.s.w);
    (t.timer1 && b.since >= 1 ==> Restart(env, n, b) <= 1) &&
    (t.timer2 ==> BatchStep(env, n, b).s.c.timer2 > BatchStep(env, n, b).event)
  }

  /** Timer 2 will not be overdue when the next batch comes. */
  ghost predicate InTime<R>(b: Batched<R>) { b.event > 0 ==> b.since + b.event < b.s.c.timer2 }

  lemma SettledTimer2<R>(env: Env<R>, n: nat, s: State<R>, t: Touched, steps: int)
    requires !(t.device && t.timer2)
    ensures Sections(env, n, s, t, steps).c.timer2 == SettleAll(env, n, s, BEFORE).c.timer2
  {
    var p := DeviceSection(env, n, SettleAll(env, n, s, BEFORE), t, steps);
    SettleOthers(env, n, p, AFTER);
    hide SettleAll;
  }

  lemma {:induction false} SettleOthers<R>(env: Env<R>, n: nat, s: State<R>, ks: seq<Kind>)
    requires Timer2 !in ks
    ensures SettleAll(env, n, s, ks).c.timer2 == s.c.timer2
    decreases |ks|
  {
    if ks != [] { SettleOthers(env, n, Settle(env, n, s, ks[0]), ks[1..]); }
  }

  /** Timer 2 sets the pace of the next batch unless it is restarted after that was decided. */
  lemma ScheduledInTime<R>(env: Env<R>, n: nat, s: State<R>, t: Touched, steps: nat, p: Redraw.Pending)
    requires t.timer2 ==> Scheduled(env, n, s, t, steps, p).s.c.timer2 > Scheduled(env, n, s, t, steps, p).event
    ensures InTime(Scheduled(env, n, s, t, steps, p))
  {
    hide Sections, SettleAll, Redraw.Batch;
    if !t.timer2 { SettledTimer2(env, n, Charge(s, steps), t, steps); }
  }

  lemma StepInTime<R>(env: Env<R>, n: nat, b: Batched<R>)
    requires InTime(b) && Punctual(env, n, b)
    ensures Agrees(env, n, b) && InTime(BatchStep(env, n, b))
  {
    hide Scheduled, Redraw.Touch, InstrOf, TouchedBy, Restart;
    if Called(env, n, b) {
      var t := TouchedBy(env, n, b.s.w);
      hide InTime, Executed;
      ScheduledInTime(env, n, Executed(env, n, b.s), t, b.since + 1, Redraw.Touch(b.p, InstrOf(env, n, b.s.w, false)));
    }
  }

  lemma {:induction false} PunctualIsSame<R>(env: Env<R>, w: World<R>, n: nat)
    requires forall i: nat :: i < n ==> Punctual(env, i, BatchRun(env, w, i))
    ensures SameAt(env, w, n) && InTime(BatchRun(env, w, n))
  {
    hide BatchStep, RefRun, RefStep, Agrees, Same, Tight, Punctual;
    StartSame(env, w);
    if n > 0 {
      PunctualIsSame(env, w, n - 1);
      hide BatchRun, InTime;
      BatchNext(env, w, n - 1);
      StepInTime(env, n - 1, BatchRun(env, w, n - 1));
      NextSame(env, w, n - 1);
    }
  }

  /** Between writes to the timers the batched form is the per-instruction form, all events in order. */
  lemma SameWithoutTimerWrites<R>(env: Env<R>, w: World<R>, n: nat)
    requires forall i: nat :: i < n ==>
               TouchedBy(env, i, BatchRun(env, w, i).s.w) in {NOTHING, Touched(true, false, false)}
    ensures SameAt(env, w, n)
  {
    hide BatchRun, RefRun, BatchStep, SameAt;
    forall i: nat | i < n ensures Punctual(env, i, BatchRun(env, w, i)) {
      assert TouchedBy(env, i, BatchRun(env, w, i).s.w) in {NOTHING, Touched(true, false, false)};
    }
    PunctualIsSame(env, w, n);
  }

  // -------------------------------------------------------------- periods of the timers

  /** A world in which interrupts stay as they are and a tick of either timer takes so many instructions. */
  predicate Ticks<R>(w: World<R>, enabled: bool, t1: int, t2: int)
  {
    w.intenable == enabled && w.t1_tick == t1 && w.t2_tick == t2
  }

  /** A machine that leaves interrupts and ticks alone and writes to neither timer. */
  ghost predicate Steady<R(!new)>(env: Env<R>, enabled: bool, t1: int, t2: int)
  {
    (forall n: nat, w: World<R> :: Ticks(w, enabled, t1, t2) ==> Ticks(env.exec(n, w), enabled, t1, t2)) &&
    (forall n: nat, w: World<R> :: Ticks(w, enabled, t1, t2) ==> Ticks(env.device(n, w), enabled, t1, t2)) &&
    (forall k: Kind, n: nat, w: World<R> ::
       Ticks(w, enabled, t1, t2) ==> Ticks(env.fire(k, n, w), enabled, t1, t2)) &&
    (forall n: nat, w: World<R> :: !env.timer1(n, w)) && (forall n: nat, w: World<R> :: !env.timer2(n, w))
  }

  lemma WorkTicks<R(!new)>(env: Env<R>, n: nat, w: World<R>, k: Kind, enabled: bool, t1: int, t2: int)
    requires Steady(env, enabled, t1, t2) && Ticks(w, enabled, t1, t2)
    ensures Ticks(Work(env, n, w, k), enabled, t1, t2)
  {
    assert Ticks(env.fire(k, n, w), enabled, t1, t2);
  }

  /** What timer k starts over with: its tick, or a constant of its own while interrupts are masked. */
  function Again(k: Kind, enabled: bool, t1: int, t2: int): int
  {
    if k == Timer1 then (if enabled then t1 else 0x1e00) else if enabled then t2 else 0xf
  }

  lemma {:induction false} SettleTimer<R(!new)>(env: Env<R>, n: nat, s: State<R>, ks: seq<Kind>, k: Kind,
                                               enabled: bool, t1: int, t2: int)
    requires Steady(env, enabled, t1, t2) && Ticks(s.w, enabled, t1, t2) && (k == Timer1 || k == Timer2)
    requires Again(k, enabled, t1, t2) > 0
    ensures var s' := SettleAll(env, n, s, ks);
            Ticks(s'.w, enabled, t1, t2) &&
            s'.c.Get(k) == (if k in ks && s.c.Get(k) <= 0 then Again(k, enabled, t1, t2) else s.c.Get(k)) &&
            ((n, k) in s'.log <==> (n, k) in s.log || (k in ks && s.c.Get(k) <= 0))
    decreases |ks|
  {
    if ks != [] {
      WorkTicks(env, n, s.w, ks[0], enabled, t1, t2);
      var s1 := Settle(env, n, s, ks[0]);
      assert s1.c.Get(k) == if ks[0] == k && s.c.Get(k) <= 0 then Again(k, enabled, t1, t2) else s.c.Get(k);
      hide Steady;
      SettleTimer(env, n, s1, ks[1..], k, enabled, t1, t2);
    }
  }

  lemma DeviceTicks<R(!new)>(env: Env<R>, n: nat, s: State<R>, a: bool, enabled: bool, t1: int, t2: int)
    requires Steady(env, enabled, t1, t2) && Ticks(s.w, enabled, t1, t2)
    ensures var s' := DeviceSection(env, n, s, Touched(a, false, false), 1);
            Ticks(s'.w, enabled, t1, t2) && s'.c == s.c && s'.log == s.log
  {
    assert Ticks(env.device(n, s.w), enabled, t1, t2);
  }

  /** One instruction of the per-instruction form, as timer k sees it. */
  lemma StepTimer<R(!new)>(env: Env<R>, n: nat, s: State<R>, k: Kind, enabled: bool, t1: int, t2: int)
    requires Steady(env, enabled, t1, t2) && Ticks(s.w, enabled, t1, t2) && (k == Timer1 || k == Timer2)
    requires Again(k, enabled, t1, t2) > 0
    ensures var s' := RefStep(env, n, s);
            Ticks(s'.w, enabled, t1, t2) &&
            s'.c.Get(k) == (if s.c.Get(k) <= 1 then Again(k, enabled, t1, t2) else s.c.Get(k) - 1) &&
            ((n, k) in s'.log <==> (n, k) in s.log || s.c.Get(k) <= 1)
  {
    var q := Charge(Executed(env, n, s), 1);
    assert Ticks(env.exec(n, s.w), enabled, t1, t2) && !env.timer1(n, s.w) && !env.timer2(n, s.w);
    assert q.c.Get(k) == s.c.Get(k) - 1 && q.log == s.log && Ticks(q.w, enabled, t1, t2);
    hide SettleAll, Steady;
    SettleTimer(env, n, q, BEFORE, k, enabled, t1, t2);
    var p := SettleAll(env, n, q, BEFORE);
    DeviceTicks(env, n, p, env.accessed(n, s.w), enabled, t1, t2);
    SettleTimer(env, n, DeviceSection(env, n, p, TouchedBy(env, n, s.w), 1), AFTER, k, enabled, t1, t2);
  }

  /** Instructions until a timer that starts with `first` and starts over with `again` runs out. */
  function Remaining(n: nat, first: int, again: int): int
    requires again > 0
  {
    if n < first then first - n else again - (n - first) % again
  }

  lemma RemainingNext(n: nat, first: int, again: int)
    requires first > 0 && again > 0
    ensures Remaining(n + 1, first, again) ==
            if Remaining(n, first, again) <= 1 then again else Remaining(n, first, again) - 1
    ensures Remaining(n, first, again) <= 1 <==> n + 1 >= first && (n + 1 - first) % again == 0
  {
    if n >= first {
      ModNext(n - first, again, (n - first) % again);
    } else if n + 1 == first {
      assert 0 % again == 0;
    }
  }

  lemma {:induction false} RunTimer<R(!new)>(env: Env<R>, w: World<R>, n: nat, m: nat, k: Kind,
                                            enabled: bool, t1: int, t2: int)
    requires Steady(env, enabled, t1, t2) && Ticks(w, enabled, t1, t2) && t1 > 0 && t2 > 0
    requires k == Timer1 || k == Timer2
    ensures var first, again := if k == Timer1 then t1 else t2, Again(k, enabled, t1, t2);
            var r := RefRun(env, w, n);
            Ticks(r.w, enabled, t1, t2) && r.c.Get(k) == Remaining(n, first, again) &&
            ((m, k) in r.log <==> m < n && m + 1 >= first && (m + 1 - first) % again == 0)
  {
    hide *;
    var first, again := if k == Timer1 then t1 else t2, Again(k, enabled, t1, t2);
    AgainPositive(k, enabled, t1, t2);
    if n == 0 {
      TicksMean(w, enabled, t1, t2);
      StartTimer(env, w, k, again);
    } else {
      var r := RefRun(env, w, n - 1);
      RunTimer(env, w, n - 1, m, k, enabled, t1, t2);
      RefLogBelow(env, w, n - 1);
      RefGrows(env, n - 1, r);
      RefNext(env, w, n - 1);
      StepTimer(env, n - 1, r, k, enabled, t1, t2);
      RemainingNext(n - 1, first, again);
      if m != n - 1 { GrownEntries(r.log, RefStep(env, n - 1, r).log, n - 1, m, k); }
    }
  }

  lemma AgainPositive(k: Kind, enabled: bool, t1: int, t2: int)
    requires t1 > 0 && t2 > 0
    ensures Again(k, enabled, t1, t2) > 0
  {
  }

  lemma TicksMean<R>(w: World<R>, enabled: bool, t1: int, t2: int)
    requires Ticks(w, enabled, t1, t2)
    ensures w.t1_tick == t1 && w.t2_tick == t2
  {
  }

  lemma StartTimer<R>(env: Env<R>, w: World<R>, k: Kind, again: int)
    requires (k == Timer1 || k == Timer2) && again > 0 && w.t1_tick > 0 && w.t2_tick > 0
    ensures var r, first := RefRun(env, w, 0), if k == Timer1 then w.t1_tick else w.t2_tick;
            r.w == w && r.log == [] && r.c.Get(k) == Remaining(0, first, again)
  {
    hide RefStep;
  }

  lemma RefGrows<R>(env: Env<R>, n: nat, s: State<R>)
    ensures var log := RefStep(env, n, s).log;
            s.log <= log && forall i :: |s.log| <= i < |log| ==> log[i].0 == n
  {
    SectionsGrow(env, n, Charge(Executed(env, n, s), 1), TouchedBy(env, n, s.w), 1);
    hide Sections;
  }

  lemma StartEmpty<R>(env: Env<R>, w: World<R>)
    ensures RefRun(env, w, 0).log == []
  {
    hide RefStep;
  }

  lemma {:induction false} RefLogBelow<R>(env: Env<R>, w: World<R>, n: nat)
    ensures forall e :: e in RefRun(env, w, n).log ==> e.0 < n
  {
    hide *;
    if n == 0 {
      StartEmpty(env, w);
    } else {
      RefLogBelow(env, w, n - 1);
      RefNext(env, w, n - 1);
      RefGrows(env, n - 1, RefRun(env, w, n - 1));
    }
  }

  /**
   The timers' periods, with no writes to them: with interrupts enabled a timer comes every
   `t1` (or `t2`) instructions; masked, it comes once after as many and then every 0x1e00
   (timer 1) or fifteen (timer 2).
   */
  lemma TimerPeriods<R(!new)>(env: Env<R>, w: World<R>, n: nat, m: nat, enabled: bool, t1: int, t2: int)
    requires Steady(env, enabled, t1, t2) && Ticks(w, enabled, t1, t2) && t1 > 0 && t2 > 0
    ensures var log := BatchRun(env, w, n).s.log;
            ((m, Timer1) in log <==> m < n && if enabled then (m + 1) % t1 == 0
                                              else m + 1 >= t1 && (m + 1 - t1) % 0x1e00 == 0) &&
            ((m, Timer2) in log <==> m < n && if enabled then (m + 1) % t2 == 0
                                              else m + 1 >= t2 && (m + 1 - t2) % 0xf == 0)
  {
    hide BatchRun, RefRun, Steady, Ticks, Remaining;
    RunTimer(env, w, n, m, Timer1, enabled, t1, t2);
    RunTimer(env, w, n, m, Timer2, enabled, t1, t2);
    SteadyIsSame(env, w, n, enabled, t1, t2);
    FromFirst(m + 1, t1);
    FromFirst(m + 1, t2);
  }

  lemma FromFirst(x: int, t: int)
    requires t > 0 && x > 0
    ensures x >= t && (x - t) % t == 0 <==> x % t == 0
  {
    var q := x / t;
    assert x == t * q + x % t;
    if x >= t { ModMinus(x, t); }
  }

  lemma ModMinus(x: int, t: int)
    requires x >= t > 0
    ensures (x - t) % t == x % t
  {
    var q, q' := x / t, (x - t) / t;
    assert x == t * q + x % t && x - t == t * q' + (x - t) % t;
    Distribute(t, q', 1);
    DigitUnique(t, x % t, (x - t) % t, q, q' + 1);
  }

  lemma SteadyIsSame<R(!new)>(env: Env<R>, w: World<R>, n: nat, enabled: bool, t1: int, t2: int)
    requires Steady(env, enabled, t1, t2)
    ensures SameAt(env, w, n) && BatchRun(env, w, n).s.log == RefRun(env, w, n).log
  {
    forall i: nat | i < n
      ensures TouchedBy(env, i, BatchRun(env, w, i).s.w) in {NOTHING, Touched(true, false, false)}
    {
      assert !env.timer1(i, BatchRun(env, w, i).s.w) && !env.timer2(i, BatchRun(env, w, i).s.w);
    }
    hide BatchRun, RefRun, Steady;
    SameWithoutTimerWrites(env, w, n);
  }

  /** The other periods, in numbers: a poll of the serial line, a count of the statistics, a rollover. */
  lemma PollPeriods<R>(env: Env<R>, w: World<R>, n: nat, m: nat)
    ensures var log := BatchRun(env, w, n).s.log;
            ((m, Receive) in log <==> m < n && (m + 1) % 0x7ff == 0) &&
            ((m, Statistics) in log <==> m < n && (m + 1) % 0x7ffff == 0) &&
            ((m, Rollover) in log <==> m < n && (m + 1) % 0x3fffffff == 0)
  {
    FiresExactly(env, w, n, m, Receive);
    FiresExactly(env, w, n, m, Statistics);
    FiresExactly(env, w, n, m, Rollover);
    FixedPeriod(env, w, m, Receive);
    FixedPeriod(env, w, m, Statistics);
    FixedPeriod(env, w, m, Rollover);
    hide BatchRun, Down, Due;
  }

  /** No adjustment from instruction `from` up to instruction n. */
  ghost predicate NoneDue<R>(env: Env<R>, w: World<R>, from: int, n: nat)
  {
    forall j: nat :: from <= j < n ==> !Due(env, w, Adjtime, j)
  }

  /** The counter of the adjustment loses at most one an instruction, and exactly one while none is made. */
  lemma {:induction false} DownSlowly<R>(env: Env<R>, w: World<R>, n: nat, d: nat)
    requires d <= n
    ensures Down(env, w, Adjtime, n) <= 0x1ffe && Down(env, w, Adjtime, n) >= Down(env, w, Adjtime, n - d) - d
    ensures NoneDue(env, w, n - d, n) ==> Down(env, w, Adjtime, n) == Down(env, w, Adjtime, n - d) - d
    decreases n + d
  {
    hide BatchRun, Due;
    if n > 0 { DownSlowly(env, w, n - 1, if d > 0 then d - 1 else 0); }
    if d > 0 { assert n - 1 - (d - 1) == n - d; }
  }

  lemma DueIs<R>(env: Env<R>, w: World<R>, m: nat)
    ensures Due(env, w, Adjtime, m) <==> Down(env, w, Adjtime, m) <= 1 || Hurries(env, m, BatchRun(env, w, m).s.w)
    ensures Due(env, w, Adjtime, m) ==> Down(env, w, Adjtime, m + 1) == 0x1ffe
    ensures Down(env, w, Adjtime, 0) == 0x1ffe
  {
    hide BatchRun, Hurries;
  }

  lemma NotNone<R>(env: Env<R>, w: World<R>, from: int, n: nat) returns (j: nat)
    requires !NoneDue(env, w, from, n)
    ensures from <= j < n && Due(env, w, Adjtime, j)
  {
    hide Due;
    j :| from <= j < n && Due(env, w, Adjtime, j);
  }

  /** The adjustment is due at an RTI that finds one put off, and else when the last is 0x1ffe instructions past. */
  lemma AdjustmentDue<R>(env: Env<R>, w: World<R>, m: nat)
    ensures Due(env, w, Adjtime, m) <==>
              Hurries(env, m, BatchRun(env, w, m).s.w) || (m >= 0x1ffd && NoneDue(env, w, m - 0x1ffd, m))
  {
    hide *;
    DueIs(env, w, m);
    if m < 0x1ffd {
      DueIs(env, w, 0);
      DownSlowly(env, w, m, m);
    } else if NoneDue(env, w, m - 0x1ffd, m) {
      DownSlowly(env, w, m, 0x1ffd);
      DownSlowly(env, w, m - 0x1ffd, 0);
    } else {
      var j := NotNone(env, w, m - 0x1ffd, m);
      DueIs(env, w, j);
      DownSlowly(env, w, m, m - (j + 1));
    }
  }

  /** The same of the run: an adjustment comes 0x1ffe instructions after the last, unless an RTI brings one sooner. */
  lemma AdjustmentPeriod<R>(env: Env<R>, w: World<R>, n: nat, m: nat)
    ensures var log := BatchRun(env, w, n).s.log;
            (m, Adjtime) in log <==>
              m < n && (Hurries(env, m, BatchRun(env, w, m).s.w) ||
                        (m >= 0x1ffd && forall j: nat :: m - 0x1ffd <= j < m ==> (j, Adjtime) !in log))
  {
    hide BatchRun, Due, Hurries;
    FiresExactly(env, w, n, m, Adjtime);
    AdjustmentDue(env, w, m);
    forall j: nat | j < m ensures (j, Adjtime) in BatchRun(env, w, n).s.log <==> j < n && Due(env, w, Adjtime, j) {
      FiresExactly(env, w, n, j, Adjtime);
    }
  }

  // -------------------------------------------------------------- timers that go wrong

  /** A machine that writes to the timers in one instruction and does nothing else. */
  function Writer(at: nat): Env<()>
  {
    Env((n, w: World<()>) => w, (n, w: World<()>) => n == at, (n, w: World<()>) => false,
        (n, w: World<()>) => true, (n, w: World<()>) => true, (n, w: World<()>) => false,
        (n, w: World<()>) => false, (n, w: World<()>) => w, (k, n, w: World<()>) => w)
  }

  const WORLD := World(true, 8192, 16, 0, false, ())

  lemma WriterQuiet(n: nat)
    requires n <= 1
    ensures var s := State(WORLD, Initial(8192, 16).Minus(n), []);
            RefStep(Writer(2), n, s) == State(WORLD, Initial(8192, 16).Minus(n + 1), [])
  {
    var env, s := Writer(2), State(WORLD, Initial(8192, 16).Minus(n + 1), []);
    assert env.exec(n, WORLD) == WORLD;
    CalmSections(env, n, s, NOTHING, 1);
    hide SettleAll, Sections;
  }

  /** Two instructions that do nothing: the first ends a batch, the second is in the next one. */
  lemma WriterFirst(b: Batched<()>)
    requires b.s == State(WORLD, Initial(8192, 16), []) && b.since == 0 && b.event == 0 && !b.p.check
    ensures var b' := BatchStep(Writer(2), 0, b);
            b'.s == State(WORLD, Initial(8192, 16).Minus(1), []) && b'.since == 0 && b'.event == 14
  {
    hide SettleAll, Sections;
    CalmSections(Writer(2), 0, State(WORLD, Initial(8192, 16).Minus(1), []), NOTHING, 1);
  }

  lemma WriterSecond(b: Batched<()>)
    requires b.s == State(WORLD, Initial(8192, 16).Minus(1), []) && b.since == 0 && b.event == 14
    ensures var b' := BatchStep(Writer(2), 1, b);
            b'.s == State(WORLD, Initial(8192, 16).Minus(1), []) && b'.since == 1
  {
    hide SettleAll, Sections;
  }

  lemma WriterThird(b: Batched<()>)
    requires b.s == State(WORLD, Initial(8192, 16).Minus(1), []) && b.since == 1
    ensures BatchStep(Writer(2), 2, b).s.c.timer1 == 8190
    ensures RefStep(Writer(2), 2, State(WORLD, Initial(8192, 16).Minus(2), [])).c.timer1 == 8191
  {
    hide SettleAll, Sections;
    var s := State(WORLD, Initial(8192, 16).Minus(3), []);
    CalmSections(Writer(2), 2, s, Touched(true, true, true), 2);
    CalmSections(Writer(2), 2, s, Touched(true, true, true), 1);
  }

  lemma WriterCounted()
    ensures RefRun(Writer(2), WORLD, 2) == State(WORLD, Initial(8192, 16).Minus(2), [])
  {
    hide RefStep;
    RefNext(Writer(2), WORLD, 0);
    RefNext(Writer(2), WORLD, 1);
    WriterQuiet(0);
    WriterQuiet(1);
  }

  /** Timer 1 written in the third instruction, two instructions into a batch, has one too few to go. */
  lemma TimerOneExample()
    ensures BatchRun(Writer(2), WORLD, 3).s.c.timer1 == 8190 && RefRun(Writer(2), WORLD, 3).c.timer1 == 8191
  {
    var env, w := Writer(2), WORLD;
    assert BatchRun(env, w, 0).event == 0 && !BatchRun(env, w, 0).p.check;
    StartTight(env, w);
    hide BatchRun, RefRun, BatchStep, RefStep;
    BatchNext(env, w, 0);
    BatchNext(env, w, 1);
    BatchNext(env, w, 2);
    WriterFirst(BatchRun(env, w, 0));
    WriterSecond(BatchRun(env, w, 1));
    WriterThird(BatchRun(env, w, 2));
    WriterCounted();
    RefNext(env, w, 2);
  }

  /** Where no counter is due only the device section does anything. */
  lemma CalmSections<R>(env: Env<R>, n: nat, s: State<R>, t: Touched, steps: int)
    requires s.c.AtLeast(1) && DeviceSection(env, n, s, t, steps).c.AtLeast(1)
    ensures Sections(env, n, s, t, steps) == DeviceSection(env, n, s, t, steps)
    ensures SettleAll(env, n, s, BEFORE) == s
  {
    QuietSettle(env, n, s, BEFORE);
    QuietSettle(env, n, DeviceSection(env, n, s, t, steps), AFTER);
    hide SettleAll;
  }

  const MASKED := World(false, 8192, 2, 0, false, ())

  lemma SettleTimer2<R>(env: Env<R>, n: nat, s: State<R>)
    ensures SettleAll(env, n, s, BEFORE) == Settle(env, n, s, Timer2)
  {
    SettleNone(env, n, Settle(env, n, s, Timer2));
    assert BEFORE[1..] == [];
  }

  lemma MaskedFirst(b: Batched<()>)
    requires b.s == State(MASKED, Initial(8192, 2), []) && b.since == 0 && b.event == 0 && b.p == Redraw.STARTUP
    ensures var b' := BatchStep(Writer(2), 0, b);
            b'.s == State(MASKED, Initial(8192, 2).Minus(1), []) && b'.since == 0 && b'.event == 0 &&
            b'.p == Redraw.STARTUP
    ensures Agrees(Writer(2), 0, b)
  {
    hide SettleAll, Sections;
    CalmSections(Writer(2), 0, State(MASKED, Initial(8192, 2).Minus(1), []), NOTHING, 1);
  }

  /** The second instruction runs timer 2 out; while interrupts are masked it starts over with fifteen. */
  lemma MaskedSecond(b: Batched<()>)
    requires b.s == State(MASKED, Initial(8192, 2).Minus(1), [])
    requires b.since == 0 && b.event == 0 && b.p == Redraw.STARTUP
    ensures var b' := BatchStep(Writer(2), 1, b);
            b'.s == State(MASKED, Initial(8192, 15).Minus(2).(timer2 := 15), [(1, Timer2)]) &&
            b'.since == 0 && b'.event == 14 && b'.p == Redraw.STARTUP
    ensures Agrees(Writer(2), 1, b)
  {
    var q := State(MASKED, Initial(8192, 2).Minus(2), []);
    var r := State(MASKED, Initial(8192, 15).Minus(2).(timer2 := 15), [(1, Timer2)]);
    SettleTimer2(Writer(2), 1, q);
    assert Settle(Writer(2), 1, q, Timer2) == r;
    QuietSettle(Writer(2), 1, r, AFTER);
    hide SettleAll, Settle;
  }

  /** The third restarts it with two, after the next batch has been set thirteen instructions on. */
  lemma MaskedThird(b: Batched<()>)
    requires b.s == State(MASKED, Initial(8192, 15).Minus(2).(timer2 := 15), [(1, Timer2)])
    requires b.since == 0 && b.event == 14 && b.p == Redraw.STARTUP
    ensures var b' := BatchStep(Writer(2), 2, b);
            b'.s.w == MASKED && b'.s.c.timer2 == 2 && b'.since == 0 && b'.event >= 2
    ensures Agrees(Writer(2), 2, b)
  {
    var q := State(MASKED, Initial(8192, 15).Minus(3).(timer2 := 14), [(1, Timer2)]);
    hide SettleAll, Sections;
    CalmSections(Writer(2), 2, q, Touched(true, true, true), 1);
  }

  /** The fourth and fifth end no batch, though the fifth is the one at which timer 2 runs out. */
  lemma MaskedLast(b: Batched<()>)
    requires b.s.w == MASKED && b.s.c.timer2 == 2 && b.since == 0 && b.event >= 2
    ensures Agrees(Writer(2), 3, b) && !Agrees(Writer(2), 4, BatchStep(Writer(2), 3, b))
  {
    hide Scheduled, Restart;
  }

  /** Timer 2 written with less than the batch to come is overlooked when it runs out, two instructions on. */
  lemma TimerTwoExample()
    ensures SameAt(Writer(2), MASKED, 4) && !SameAt(Writer(2), MASKED, 5)
  {
    var env, w := Writer(2), MASKED;
    assert BatchRun(env, w, 0) == Batched(State(w, Initial(8192, 2), []), 0, 0, Redraw.STARTUP);
    StartSame(env, w);
    hide BatchRun, BatchStep, Agrees, SameAt;
    MaskedFirst(BatchRun(env, w, 0));
    BatchNext(env, w, 0);
    NextSame(env, w, 0);
    MaskedSecond(BatchRun(env, w, 1));
    BatchNext(env, w, 1);
    NextSame(env, w, 1);
    MaskedThird(BatchRun(env, w, 2));
    BatchNext(env, w, 2);
    NextSame(env, w, 2);
    MaskedLast(BatchRun(env, w, 3));
    BatchNext(env, w, 3);
    NextSame(env, w, 3);
    NextSame(env, w, 4);
  }

  // ------------------------------------------------------------------------- redraws

  /** What the redraw countdown sees of the batched run; `due` says that the scheduler runs for another reason. */
  function Trace<R>(env: Env<R>, w: World<R>, n: nat): (run: seq<Redraw.Instr>)
    ensures |run| == n
  {
    if n == 0 then []
    else
      var b := BatchRun(env, w, n - 1);
      Trace(env, w, n - 1) +
      [InstrOf(env, n - 1, b.s.w, b.event <= 0 || Hurries(env, n - 1, b.s.w))]
  }

  lemma StepClock<R>(env: Env<R>, n: nat, b: Batched<R>)
    requires Tight(b)
    ensures var b', i := BatchStep(env, n, b), InstrOf(env, n, b.s.w, b.event <= 0 || Hurries(env, n, b.s.w));
            Redraw.Clock(b'.p, b'.since) == Redraw.Tick(Redraw.Clock(b.p, b.since), i)
  {
    hide SettleAll, Sections, Executed;
  }

  lemma ClockStart<R>(env: Env<R>, w: World<R>)
    ensures var b := BatchRun(env, w, 0);
            Redraw.Clock(b.p, b.since) == Redraw.At(Redraw.STARTUP, Trace(env, w, 0))
  {
    hide BatchStep;
  }

  lemma TraceNext<R>(env: Env<R>, w: World<R>, n: nat)
    ensures var b := BatchRun(env, w, n);
            Trace(env, w, n + 1) ==
              Trace(env, w, n) + [InstrOf(env, n, b.s.w, b.event <= 0 || Hurries(env, n, b.s.w))]
  {
    hide BatchRun, InstrOf;
  }

  /**
   The scheduler calls on the redraw countdown as its own model says, so the run loses a redraw
   exactly as in Redraw.LostExactly.
   */
  lemma {:induction false} ClockOfRun<R>(env: Env<R>, w: World<R>, n: nat)
    ensures var b := BatchRun(env, w, n);
            Redraw.Clock(b.p, b.since) == Redraw.At(Redraw.STARTUP, Trace(env, w, n))
  {
    hide BatchStep, BatchRun, Tight, InstrOf, Trace, Redraw.Tick, Redraw.At;
    if n == 0 {
      ClockStart(env, w);
    } else {
      var b := BatchRun(env, w, n - 1);
      ClockOfRun(env, w, n - 1);
      RunTight(env, w, n - 1);
      StepClock(env, n - 1, b);
      BatchNext(env, w, n - 1);
      TraceNext(env, w, n - 1);
      Redraw.AtNext(Redraw.STARTUP, Trace(env, w, n - 1),
                    InstrOf(env, n - 1, b.s.w, b.event <= 0 || Hurries(env, n - 1, b.s.w)));
    }
  }
}
